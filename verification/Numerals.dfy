/** The two library conversions the chat format rests on: `std::to_string` for an
    unsigned number and `std::atoi`, whose result the format casts to `uint32_t`.

    One `char` of the model is one byte; the end of a sequence is the terminating NUL. */
module Numerals {

  const UINT32_LIMIT: nat := 0x1_0000_0000
  const INT_LIMIT: int := 0x8000_0000

  type Uint32 = n: nat | n < UINT32_LIMIT

  /** What the cast result is when the text denotes a number outside `int`. C++ leaves that
      undefined, so every result below holds for every function of this type. */
  type Wild = int -> Uint32

  predicate IsDigit(c: char) { '0' <= c <= '9' }

  predicate IsSpace(c: char) { c == ' ' || '\t' <= c <= '\r' }

  function Digit(d: nat): (c: char)
    requires d < 10
    ensures IsDigit(c) && c as int - '0' as int == d
  {
    '0' + d as char
  }

  function ToString(n: nat): (s: string)
    ensures s != [] && forall c :: c in s ==> IsDigit(c)
  {
    if n < 10 then [Digit(n)] else ToString(n / 10) + [Digit(n % 10)]
  }

  /** Continues reading decimal digits after `acc`, up to the first byte that is not one. */
  function DigitsValue(s: string, acc: nat): nat {
    if s == [] || !IsDigit(s[0]) then acc
    else DigitsValue(s[1..], 10 * acc + (s[0] as int - '0' as int))
  }

  function SkipSpaces(s: string): (t: string)
    ensures |t| <= |s|
  {
    if s == [] || !IsSpace(s[0]) then s else SkipSpaces(s[1..])
  }

  /** What `atoi` does behind the white space. */
  function Signed(t: string): int {
    if t != [] && t[0] == '-' then -(DigitsValue(t[1..], 0) as int)
    else if t != [] && t[0] == '+' then DigitsValue(t[1..], 0)
    else DigitsValue(t, 0)
  }

  /** The number denoted by the text, before the question whether `int` can hold it. */
  function Atoi(s: string): int {
    Signed(SkipSpaces(s))
  }

  /** `static_cast<uint32_t>(std::atoi(s))` */
  function ReadUint32(s: string, wild: Wild): Uint32 {
    var v := Atoi(s);
    if -INT_LIMIT <= v < INT_LIMIT then v % UINT32_LIMIT else wild(v)
  }

  // ---- atoi stops at the separator ----

  lemma {:induction false} DigitsStopAtColon(s: string, t: string, acc: nat)
    requires t != [] && t[0] == ':'
    ensures DigitsValue(s + t, acc) == DigitsValue(s, acc)
  {
    if s == [] {
      assert s + t == t;
    } else {
      assert (s + t)[1..] == s[1..] + t;
      if IsDigit(s[0]) {
        DigitsStopAtColon(s[1..], t, 10 * acc + (s[0] as int - '0' as int));
      }
    }
  }

  lemma {:induction false} SpacesStopAtColon(s: string, t: string)
    requires t != [] && t[0] == ':'
    ensures SkipSpaces(s + t) == SkipSpaces(s) + t
  {
    if s == [] {
      assert s + t == t;
    } else {
      assert (s + t)[1..] == s[1..] + t;
      if IsSpace(s[0]) {
        SpacesStopAtColon(s[1..], t);
      }
    }
  }

  /** `atoi` is handed the data pointer of a view that is not terminated where the view ends;
      since a ':' follows there, it reads exactly what the bounded view holds. */
  lemma AtoiStopsAtColon(s: string, t: string)
    requires t != [] && t[0] == ':'
    ensures Atoi(s + t) == Atoi(s)
  {
    SpacesStopAtColon(s, t);
    var u := SkipSpaces(s);
    DigitsStopAtColon(u, t, 0);
    if u != [] {
      assert (u + t)[1..] == u[1..] + t;
      DigitsStopAtColon(u[1..], t, 0);
    }
  }

  // ---- what atoi reads, as a grammar ----

  /** The number a string of decimal digits stands for. */
  function Decimal(digits: string): nat
    requires forall c :: c in digits ==> IsDigit(c)
  {
    if digits == [] then 0
    else
      assert IsDigit(digits[|digits| - 1]);
      10 * Decimal(digits[..|digits| - 1]) + (digits[|digits| - 1] as int - '0' as int)
  }

  /** White space, a sign or none, digits, and a rest that does not go on with what precedes it. */
  ghost predicate IsNumeral(s: string, w: string, sign: string, digits: string, rest: string) {
    && s == w + sign + digits + rest
    && (forall c :: c in w ==> c == ' ' || 9 <= c as int <= 13)
    && (sign == "" || sign == "+" || sign == "-")
    && (forall c :: c in digits ==> '0' <= c <= '9')
    && (rest != "" ==> !('0' <= rest[0] <= '9'))
    && (rest != "" && digits == "" && sign == "" ==>
          rest[0] != ' ' && !(9 <= rest[0] as int <= 13) && rest[0] != '+' && rest[0] != '-')
  }

  /** The number a text denotes. */
  ghost predicate Denotes(s: string, v: int) {
    exists w: string, sign: string, digits: string, rest: string ::
      IsNumeral(s, w, sign, digits, rest) && v == if sign == "-" then -(Decimal(digits) as int) else Decimal(digits)
  }

  lemma {:induction false} DigitsAreDecimal(head: string, tail: string, rest: string)
    requires forall c :: c in head + tail ==> IsDigit(c)
    requires rest != "" ==> !IsDigit(rest[0])
    ensures DigitsValue(tail + rest, Decimal(head)) == Decimal(head + tail)
    decreases |tail|
  {
    if tail == [] {
      assert tail + rest == rest && head + tail == head;
    } else {
      assert tail[0] in head + tail;
      assert (tail + rest)[1..] == tail[1..] + rest;
      assert head + [tail[0]] + tail[1..] == head + tail;
      assert (head + [tail[0]])[..|head|] == head;
      DigitsAreDecimal(head + [tail[0]], tail[1..], rest);
    }
  }

  lemma {:induction false} SpacesSkipped(w: string, t: string)
    requires forall c :: c in w ==> IsSpace(c)
    requires t != "" ==> !IsSpace(t[0])
    ensures SkipSpaces(w + t) == t
  {
    if w == [] {
      assert w + t == t;
    } else {
      assert (w + t)[1..] == w[1..] + t;
      SpacesSkipped(w[1..], t);
    }
  }

  lemma DecimalOfNothing()
    ensures Decimal([]) == 0
  {
  }

  lemma SignedIsRead(sign: string, digits: string, rest: string)
    requires sign == "" || sign == "+" || sign == "-"
    requires forall c :: c in digits ==> IsDigit(c)
    requires rest != "" ==> !IsDigit(rest[0])
    requires rest != "" && digits == "" && sign == "" ==> rest[0] != '+' && rest[0] != '-'
    ensures Signed(sign + digits + rest) == if sign == "-" then -(Decimal(digits) as int) else Decimal(digits)
  {
    hide Decimal, DigitsValue;
    var t := sign + digits + rest;
    DecimalOfNothing();
    assert [] + digits == digits;
    DigitsAreDecimal([], digits, rest);
    if sign != "" {
      assert t[0] == sign[0] && t[1..] == digits + rest;
    } else {
      assert t == digits + rest;
      if digits != "" { assert t[0] == digits[0] && digits[0] in digits; }
    }
  }

  lemma NumeralStarts(s: string, w: string, sign: string, digits: string, rest: string)
    requires IsNumeral(s, w, sign, digits, rest)
    ensures var t := sign + digits + rest; t != "" ==> !IsSpace(t[0])
  {
    var t := sign + digits + rest;
    if sign != "" {
      assert t[0] == sign[0];
    } else if digits != "" {
      assert t[0] == digits[0] && digits[0] in digits;
    } else {
      assert t == rest;
    }
  }

  lemma NumeralIsRead(s: string, w: string, sign: string, digits: string, rest: string)
    requires IsNumeral(s, w, sign, digits, rest)
    ensures Atoi(s) == if sign == "-" then -(Decimal(digits) as int) else Decimal(digits)
  {
    hide Decimal, DigitsValue, SkipSpaces;
    var t := sign + digits + rest;
    assert s == w + t;
    assert forall c :: c in digits ==> IsDigit(c);
    assert t != "" ==> !IsSpace(t[0]) by { NumeralStarts(s, w, sign, digits, rest); }
    SpacesSkipped(w, t);
    SignedIsRead(sign, digits, rest);
  }

  lemma {:induction false} SplitSpaces(s: string) returns (w: string, t: string)
    ensures s == w + t && (forall c :: c in w ==> IsSpace(c)) && (t != "" ==> !IsSpace(t[0]))
  {
    if s == [] || !IsSpace(s[0]) {
      w, t := "", s;
    } else {
      var w', t' := SplitSpaces(s[1..]);
      w, t := [s[0]] + w', t';
    }
  }

  lemma {:induction false} SplitDigits(s: string) returns (d: string, t: string)
    ensures s == d + t && (forall c :: c in d ==> IsDigit(c)) && (t != "" ==> !IsDigit(t[0]))
  {
    if s == [] || !IsDigit(s[0]) {
      d, t := "", s;
    } else {
      var d', t' := SplitDigits(s[1..]);
      d, t := [s[0]] + d', t';
    }
  }

  lemma EveryTextIsANumeral(s: string) returns (w: string, sign: string, digits: string, rest: string)
    ensures IsNumeral(s, w, sign, digits, rest)
  {
    var t;
    w, t := SplitSpaces(s);
    sign := if t != "" && t[0] == '-' then "-" else if t != "" && t[0] == '+' then "+" else "";
    assert t == sign + t[|sign|..];
    digits, rest := SplitDigits(t[|sign|..]);
    assert s == w + sign + digits + rest;
    if rest != "" && digits == "" && sign == "" { assert t[0] == rest[0]; }
  }

  /** `atoi` skips white space, takes a sign and reads digits: it returns exactly the number the text
      denotes, for every text. */
  lemma AtoiExactly(s: string, v: int)
    ensures Atoi(s) == v <==> Denotes(s, v)
  {
    hide Atoi, Decimal;
    if Atoi(s) == v {
      var w, sign, digits, rest := EveryTextIsANumeral(s);
      NumeralIsRead(s, w, sign, digits, rest);
    }
    if Denotes(s, v) {
      var w: string, sign: string, digits: string, rest: string :|
        IsNumeral(s, w, sign, digits, rest) && v == if sign == "-" then -(Decimal(digits) as int) else Decimal(digits);
      NumeralIsRead(s, w, sign, digits, rest);
    }
  }

  /** The cast: a negative number wraps around, and what lies outside `int` is anybody's guess. */
  lemma ReadUint32Exactly(s: string, v: int, wild: Wild)
    requires Denotes(s, v)
    ensures ReadUint32(s, wild)
            == if 0 <= v < 0x8000_0000 then v else if -0x8000_0000 <= v < 0 then 0x1_0000_0000 + v else wild(v)
  {
    AtoiExactly(s, v);
  }

  // ---- to_string is read back, and nothing shorter is read as the same number ----

  lemma {:induction false} DigitsOfToString(n: nat, t: string)
    ensures DigitsValue(ToString(n) + t, 0) == DigitsValue(t, n)
  {
    if n < 10 {
      assert (ToString(n) + t)[1..] == t;
    } else {
      var last := [Digit(n % 10)];
      assert ToString(n) + t == ToString(n / 10) + (last + t);
      DigitsOfToString(n / 10, last + t);
      assert (last + t)[1..] == t;
    }
  }

  lemma AtoiOfToString(n: nat)
    ensures Atoi(ToString(n)) == n
  {
    assert ToString(n) + [] == ToString(n);
    DigitsOfToString(n, []);
    assert IsDigit(ToString(n)[0]);
  }

  lemma {:induction false} DecimalOfToString(n: nat)
    ensures Decimal(ToString(n)) == n
  {
    if n >= 10 {
      assert ToString(n)[..|ToString(n)| - 1] == ToString(n / 10);
      DecimalOfToString(n / 10);
    } else {
      assert ToString(n)[..0] == [];
    }
  }

  function Zeros(k: nat): (zeros: string)
    ensures |zeros| == k && forall c :: c in zeros ==> c == '0'
  {
    seq(k, _ => '0')
  }

  lemma {:induction false} LeadingZeros(k: nat, digits: string)
    requires forall c :: c in digits ==> IsDigit(c)
    ensures Decimal(Zeros(k) + digits) == Decimal(digits)
    decreases |digits|, k
  {
    var all := Zeros(k) + digits;
    if digits != [] {
      assert all[..|all| - 1] == Zeros(k) + digits[..|digits| - 1];
      LeadingZeros(k, digits[..|digits| - 1]);
    } else if k > 0 {
      assert all[..|all| - 1] == Zeros(k - 1) + [];
      LeadingZeros(k - 1, []);
    }
  }

  /** White space, signs and leading zeros around a number, and whatever follows it. */
  lemma AtoiReadsThrough(w: string, k: nat, n: nat, rest: string)
    requires forall c :: c in w ==> c == ' ' || 9 <= c as int <= 13
    requires rest != "" ==> !('0' <= rest[0] <= '9')
    ensures Atoi(w + Zeros(k) + ToString(n) + rest) == n
    ensures Atoi(w + "+" + Zeros(k) + ToString(n) + rest) == n
    ensures Atoi(w + "-" + Zeros(k) + ToString(n) + rest) == -(n as int)
  {
    hide Atoi, ToString, Decimal;
    var digits := Zeros(k) + ToString(n);
    LeadingZeros(k, ToString(n));
    DecimalOfToString(n);
    forall sign: string | sign == "" || sign == "+" || sign == "-"
      ensures Atoi(w + sign + Zeros(k) + ToString(n) + rest) == if sign == "-" then -(n as int) else n
    {
      var s := w + sign + Zeros(k) + ToString(n) + rest;
      assert s == w + sign + digits + rest;
      assert IsNumeral(s, w, sign, digits, rest);
      NumeralIsRead(s, w, sign, digits, rest);
    }
    assert w + "" == w;
  }

  /** A minus sign wraps the count or length around. */
  lemma NegativeWraps(n: nat, wild: Wild)
    requires 0 < n <= 0x8000_0000
    ensures ReadUint32("-" + ToString(n), wild) == 0x1_0000_0000 - n
  {
    hide Atoi, ToString;
    AtoiReadsThrough("", 0, n, "");
    assert Zeros(0) == "";
    assert "" + "-" + Zeros(0) + ToString(n) + "" == "-" + ToString(n);
  }

  lemma ReadToString(n: nat, wild: Wild)
    requires n < INT_LIMIT
    ensures ReadUint32(ToString(n), wild) == n
  {
    AtoiOfToString(n);
  }

  function Pow10(k: nat): (p: nat)
    ensures p >= 1
  {
    if k == 0 then 1 else 10 * Pow10(k - 1)
  }

  lemma {:induction false} Pow10Monotone(j: nat, k: nat)
    requires j <= k
    ensures Pow10(j) <= Pow10(k)
    decreases k
  {
    if j < k { Pow10Monotone(j, k - 1); }
  }

  lemma MulMonotone(a: nat, b: nat, c: nat, d: nat)
    requires a <= b && c <= d
    ensures a * c <= b * d
  {
    assert b * d == a * c + a * (d - c) + (b - a) * d;
  }

  lemma {:induction false} DigitsBelowPow10(s: string, acc: nat)
    ensures DigitsValue(s, acc) < (acc + 1) * Pow10(|s|)
  {
    var p := Pow10(|s|);
    if s == [] || !IsDigit(s[0]) {
      MulMonotone(acc + 1, acc + 1, 1, p);
    } else {
      var acc' := 10 * acc + (s[0] as int - '0' as int);
      var q := Pow10(|s| - 1);
      DigitsBelowPow10(s[1..], acc');
      MulMonotone(acc' + 1, 10 * (acc + 1), q, q);
      assert 10 * (acc + 1) * q == (acc + 1) * (10 * q);
    }
  }

  lemma {:induction false} ToStringAbovePow10(n: nat)
    requires n > 0
    ensures Pow10(|ToString(n)| - 1) <= n
  {
    if n >= 10 { ToStringAbovePow10(n / 10); }
  }

  lemma ShortestDigits(digits: string, n: nat)
    requires 0 < n <= DigitsValue(digits, 0)
    ensures |ToString(n)| <= |digits|
  {
    hide ToString, DigitsValue;
    DigitsBelowPow10(digits, 0);
    ToStringAbovePow10(n);
    if |digits| < |ToString(n)| {
      Pow10Monotone(|digits|, |ToString(n)| - 1);
    }
  }

  /** No text shorter than `to_string(n)` is read as `n`, whatever an overflow yields. */
  lemma ToStringShortest(s: string, wild: Wild)
    requires 0 < ReadUint32(s, wild) < INT_LIMIT
    ensures |ToString(ReadUint32(s, wild))| <= |s|
  {
    hide ToString, Pow10, DigitsValue, SkipSpaces;
    var n := ReadUint32(s, wild);
    var t := SkipSpaces(s);
    var digits := if t != [] && (t[0] == '-' || t[0] == '+') then t[1..] else t;
    assert n <= DigitsValue(digits, 0);
    ShortestDigits(digits, n);
  }
}
