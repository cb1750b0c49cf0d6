/** Container ids: the low 55 bits of a counter as eleven base-32 digits. */
module ContainerIds {
  import opened Common

  const DIGITS: string := "0123456789abcdefghijklmnopqrstuv"
  const ID_LENGTH: nat := 11

  /** 2^55, the number of different ids. */
  const IDS: nat := 0x80_0000_0000_0000

  const INT64: nat := 0x1_0000_0000_0000_0000

  lemma MulBelow(a: int, b: int, m: int)
    requires a < b && 0 < m
    ensures a * m + m <= b * m
  {
    MulNat(b - a - 1, m);
    assert b * m == a * m + m + (b - a - 1) * m;
  }

  lemma {:induction false} MulNat(k: nat, m: nat)
    ensures 0 <= k * m
  {
    if k > 0 {
      MulNat(k - 1, m);
      assert k * m == (k - 1) * m + m;
    }
  }

  lemma DivModUnique(v: int, m: int, q: int, r: int)
    requires 0 <= r < m && v == q * m + r
    ensures v / m == q && v % m == r
  {
    if q < v / m {
      MulBelow(q, v / m, m);
    } else if v / m < q {
      MulBelow(v / m, q, m);
    }
  }

  /** Splitting off the lowest digit. */
  lemma LowDigit(v: int, m: int)
    requires m > 0
    ensures v / 32 / m == v / (32 * m) && v % (32 * m) == 32 * (v / 32 % m) + v % 32
  {
    var h := v / 32;
    var q, r := h / m, h % m;
    assert h == q * m + r;
    assert v == q * (32 * m) + (32 * r + v % 32);
    DivModUnique(v, 32 * m, q, 32 * r + v % 32);
  }

  /** The low n base-32 digits of num, highest first. */
  function Encode(num: int, n: nat): (s: string)
    ensures |s| == n
    decreases n
  {
    if n == 0 then "" else Encode(num / 32, n - 1) + [DIGITS[num % 32]]
  }

  function DigitValue(c: char): nat {
    if '0' <= c <= '9' then c as int - '0' as int else if 'a' <= c then c as int - 'a' as int + 10 else 0
  }

  function Decode(s: string): nat {
    if s == "" then 0 else 32 * Decode(s[..|s| - 1]) + DigitValue(s[|s| - 1])
  }

  lemma DigitRoundTrip(d: nat)
    requires d < 32
    ensures DigitValue(DIGITS[d]) == d
  {
  }

  lemma {:induction false} DecodeEncode(num: int, n: nat)
    ensures Decode(Encode(num, n)) == num % Pow(32, n)
    decreases n
  {
    if n > 0 {
      DecodeEncode(num / 32, n - 1);
      DigitRoundTrip(num % 32);
      LowDigit(num, Pow(32, n - 1));
      assert Encode(num, n)[..n - 1] == Encode(num / 32, n - 1);
    }
  }

  /** The digit k places from the right: an arithmetic shift right by 5k bits, masked. */
  function Digit(num: int, k: nat): (d: nat)
    ensures d < 32
  {
    num / Pow(32, k) % 32
  }

  lemma {:induction false} DigitAt(num: int, n: nat, i: nat)
    requires i < n
    ensures Encode(num, n)[i] == DIGITS[Digit(num, n - 1 - i)]
    decreases n
  {
    if i < n - 1 {
      DigitAt(num / 32, n - 1, i);
      LowDigit(num, Pow(32, n - 2 - i));
      assert Pow(32, n - 1 - i) == 32 * Pow(32, n - 2 - i);
    } else {
      assert Pow(32, n - 1 - i) == 1;
    }
  }

  /** Shifting right by five bits a digit and masking, highest digit first. */
  method MakeId(containerNum: int) returns (id: string)
    ensures id == Encode(containerNum, ID_LENGTH)
  {
    id := "";
    for i := 0 to ID_LENGTH
      invariant id == Encode(containerNum, ID_LENGTH)[..i]
    {
      DigitAt(containerNum, ID_LENGTH, i);
      id := id + [DIGITS[Digit(containerNum, ID_LENGTH - 1 - i)]];
    }
  }

  lemma IdsAsPower()
    ensures Pow(32, ID_LENGTH) == IDS
  {
    assert Pow(32, 4) == 0x10_0000;
    assert Pow(32, 8) == 0x100_0000_0000;
  }

  /** The counter's value after k increments of an int64, wrapping. */
  function Advance(num: int, k: nat): int {
    (num + k + 0x8000_0000_0000_0000) % INT64 - 0x8000_0000_0000_0000
  }

  lemma {:induction false} SameDigits(a: int, b: int, n: nat)
    requires a % Pow(32, n) == b % Pow(32, n)
    ensures Encode(a, n) == Encode(b, n)
    decreases n
  {
    if n > 0 {
      LowDigit(a, Pow(32, n - 1));
      LowDigit(b, Pow(32, n - 1));
      SameDigits(a / 32, b / 32, n - 1);
    }
  }

  lemma Congruent(v: int, q: int)
    ensures (v + q * IDS) % IDS == v % IDS
  {
    DivModUnique(v + q * IDS, IDS, v / IDS + q, v % IDS);
  }

  lemma AdvanceModIds(num: int, k: nat)
    ensures Advance(num, k) % IDS == (num + k) % IDS
  {
    var q := (num + k + 0x8000_0000_0000_0000) / INT64;
    Congruent(num + k, -512 * q);
  }

  lemma ShiftModIds(num: int, k: nat)
    ensures (num + k) % IDS == num % IDS <==> k % IDS == 0
  {
    if k % IDS == 0 {
      Congruent(num, k / IDS);
    } else if (num + k) % IDS == num % IDS {
      DivModUnique(k, IDS, (num + k) / IDS - num / IDS, 0);
    }
  }

  /** An id decodes to the counter modulo 2^55. Two ids of one daemon are equal exactly when
      they are a multiple of 2^55 steps apart, also across the wrap of the counter. */
  lemma IdsRepeatIff(num: int, k: nat)
    ensures Decode(Encode(num, ID_LENGTH)) == num % IDS
    ensures Encode(Advance(num, k), ID_LENGTH) == Encode(num, ID_LENGTH) <==> k % IDS == 0
  {
    IdsAsPower();
    DecodeEncode(num, ID_LENGTH);
    DecodeEncode(Advance(num, k), ID_LENGTH);
    AdvanceModIds(num, k);
    ShiftModIds(num, k);
    if k % IDS == 0 {
      SameDigits(Advance(num, k), num, ID_LENGTH);
    }
  }
}
