/** Base-128 varints: encoding, size and decoding of unsigned 64-bit numbers. */
module Varints {
  import opened Common

  const UINT64: nat := 0x1_0000_0000_0000_0000
  const INT63: nat := 0x8000_0000_0000_0000

  /** The longest varint the decoder accepts: shifts 0, 7, ..., 63. */
  const MAX_VARINT: nat := 10

  /** Seven bits a byte, lowest first, the top bit set on all but the last. */
  function Varint(x: nat): (s: seq<byte>)
    ensures |s| > 0
  {
    if x < 128 then [x] else [x % 128 + 128] + Varint(x / 128)
  }

  predicate IsVarint(s: seq<byte>) {
    && 1 <= |s| <= MAX_VARINT
    && s[|s| - 1] < 128
    && forall i :: 0 <= i < |s| - 1 ==> s[i] >= 128
  }

  /** The number held in the low seven bits of each byte. */
  function Groups(s: seq<byte>): nat {
    if s == [] then 0 else s[0] % 128 + 128 * Groups(s[1..])
  }

  datatype Error = UnexpectedEOF | Overflow | BadLength | UnknownWire

  /** used counts the bytes the index moves over, on failure too. */
  datatype Read<T> = Got(value: T, used: nat) | Failed(error: Error, used: nat)

  datatype Scan = Ended(length: nat) | RanOut | TooLong

  /** Looks for the last byte of a varint from position k on. */
  function ScanVarint(s: seq<byte>, k: nat): Scan
    decreases MAX_VARINT - k
  {
    if k >= MAX_VARINT then TooLong
    else if k >= |s| then RanOut
    else if s[k] < 128 then Ended(k + 1)
    else ScanVarint(s, k + 1)
  }

  lemma {:induction false} ScanFinds(s: seq<byte>, k: nat)
    requires k <= MAX_VARINT && k <= |s|
    requires forall i :: 0 <= i < k ==> s[i] >= 128
    ensures var r := ScanVarint(s, k);
            && (r.Ended? ==> k < r.length <= |s| && IsVarint(s[..r.length]))
            && (r.RanOut? ==> |s| < MAX_VARINT && forall i :: 0 <= i < |s| ==> s[i] >= 128)
            && (r.TooLong? ==> |s| >= MAX_VARINT && forall i :: 0 <= i < MAX_VARINT ==> s[i] >= 128)
    decreases MAX_VARINT - k
  {
    if k < MAX_VARINT && k < |s| && s[k] >= 128 {
      ScanFinds(s, k + 1);
    }
  }

  /** The varint at the front of s. A tenth byte keeps only the bit that fits in 64. */
  function ReadVarint(s: seq<byte>): (r: Read<nat>)
    ensures r.used <= |s|
    ensures r.Got? ==> r.used > 0 && r.value < UINT64
  {
    ScanFinds(s, 0);
    match ScanVarint(s, 0)
    case Ended(n) => Got(Groups(s[..n]) % UINT64, n)
    case RanOut => Failed(UnexpectedEOF, 0)
    case TooLong => Failed(Overflow, 0)
  }

  lemma {:induction false} ScanReaches(v: seq<byte>, rest: seq<byte>, k: nat)
    requires IsVarint(v) && k < |v|
    ensures ScanVarint(v + rest, k) == Ended(|v|)
    decreases |v| - k
  {
    if k < |v| - 1 {
      ScanReaches(v, rest, k + 1);
    }
  }

  /** Reading succeeds exactly on the strings that start with a varint, and takes it whole. */
  lemma ReadVarintIff(s: seq<byte>, n: nat)
    ensures n <= |s| && IsVarint(s[..n]) <==> ReadVarint(s).Got? && ReadVarint(s).used == n
    ensures n <= |s| && IsVarint(s[..n]) ==> ReadVarint(s).value == Groups(s[..n]) % UINT64
  {
    ScanFinds(s, 0);
    if n <= |s| && IsVarint(s[..n]) {
      ScanReaches(s[..n], s[n..], 0);
      assert s[..n] + s[n..] == s;
    }
  }

  /** It fails for want of bytes exactly when all there are, fewer than ten, want another, and
      for size exactly when the first ten do; the index then stays where it was. */
  lemma ReadVarintFails(s: seq<byte>)
    ensures ReadVarint(s) == Failed(UnexpectedEOF, 0) <==>
              |s| < MAX_VARINT && forall i :: 0 <= i < |s| ==> s[i] >= 128
    ensures ReadVarint(s) == Failed(Overflow, 0) <==>
              |s| >= MAX_VARINT && forall i :: 0 <= i < MAX_VARINT ==> s[i] >= 128
    ensures ReadVarint(s).Failed? ==>
              ReadVarint(s) == Failed(UnexpectedEOF, 0) || ReadVarint(s) == Failed(Overflow, 0)
  {
    ScanFinds(s, 0);
  }

  lemma ReadVarintOf(v: seq<byte>, rest: seq<byte>)
    requires IsVarint(v)
    ensures ReadVarint(v + rest) == Got(Groups(v) % UINT64, |v|)
  {
    assert (v + rest)[..|v|] == v;
    ReadVarintIff(v + rest, |v|);
  }

  lemma {:induction false} VarintShape(x: nat, n: nat)
    requires x < Pow(128, n) && n > 0
    ensures 1 <= |Varint(x)| <= n
    ensures Groups(Varint(x)) == x
    ensures Varint(x)[|Varint(x)| - 1] < 128
    ensures forall i :: 0 <= i < |Varint(x)| - 1 ==> Varint(x)[i] >= 128
    decreases n
  {
    if x >= 128 {
      VarintShape(x / 128, n - 1);
      assert Varint(x)[1..] == Varint(x / 128);
    } else {
      assert Varint(x)[1..] == [];
    }
  }

  lemma PowValues()
    ensures Pow(128, 9) == INT63 && Pow(128, 10) == 128 * INT63
  {
    assert Pow(128, 3) == 0x20_0000;
    assert Pow(128, 6) == 0x400_0000_0000;
  }

  /** Decoding inverts encoding for every unsigned 64-bit number, whatever follows it. */
  lemma VarintRoundTrip(x: nat, rest: seq<byte>)
    requires x < UINT64
    ensures IsVarint(Varint(x)) && |Varint(x)| <= MAX_VARINT
    ensures ReadVarint(Varint(x) + rest) == Got(x, |Varint(x)|)
  {
    PowValues();
    VarintShape(x, 10);
    ReadVarintOf(Varint(x), rest);
  }

  /** Counts the bytes without writing them. */
  method SizeVarint(x: nat) returns (n: nat)
    ensures n == |Varint(x)|
  {
    n := 1;
    var y: nat := x / 128;
    while y != 0
      invariant n + (if y == 0 then 0 else |Varint(y)|) == |Varint(x)|
      decreases y
    {
      n := n + 1;
      y := y / 128;
    }
  }

  lemma {:induction false} PowMonotone(m: nat, n: nat)
    requires m <= n
    ensures Pow(128, m) <= Pow(128, n)
    decreases n - m
  {
    if m < n {
      PowMonotone(m + 1, n);
    }
  }

  lemma Scale(d: nat, p: nat)
    requires d < 128
    ensures d * p <= 127 * p
  {
    assert 0 <= (127 - d) * p;
  }

  lemma LastGroup(x: nat, d: nat)
    requires x < INT63 && d < 128
    ensures x + d * INT63 % UINT64 == (x + d * INT63) % UINT64
  {
  }

  lemma SmallGroup(y: nat)
    requires y < INT63
    ensures y % UINT64 == y
  {
  }

  /** Or-ing a shifted group into the value is addition: the bits below the shift are the
      value so far. Only the tenth group can lose bits. */
  lemma AddGroup(x: nat, d: nat, k: nat)
    requires k < MAX_VARINT && x < Pow(128, k) && d < 128
    ensures x + d * Pow(128, k) < Pow(128, k + 1)
    ensures x + d * Pow(128, k) % UINT64 == (x + d * Pow(128, k)) % UINT64
    ensures k < 9 ==> x + d * Pow(128, k) % UINT64 == x + d * Pow(128, k)
  {
    var p := Pow(128, k);
    Scale(d, p);
    PowValues();
    if k < 9 {
      PowMonotone(k + 1, 9);
      SmallGroup(d * p);
      SmallGroup(x + d * p);
    } else {
      LastGroup(x, d);
    }
  }

  lemma {:induction false} GroupsSnoc(s: seq<byte>, b: byte)
    ensures Groups(s + [b]) == Groups(s) + b % 128 * Pow(128, |s|)
  {
    if s == [] {
      assert [b][1..] == [];
    } else {
      GroupsSnoc(s[1..], b);
      assert (s + [b])[1..] == s[1..] + [b];
      MulStep(b % 128, Pow(128, |s| - 1));
    }
  }

  lemma MulStep(d: nat, p: nat)
    ensures 128 * (d * p) == d * (128 * p)
  {
  }

  /** One round of the decoding loop: s[k] is or-ed in at shift 7k. */
  lemma NextGroup(s: seq<byte>, k: nat, x: nat)
    requires k < MAX_VARINT && k < |s| && x == Groups(s[..k]) < Pow(128, k)
    ensures Groups(s[..k + 1]) < Pow(128, k + 1)
    ensures x + s[k] % 128 * Pow(128, k) % UINT64 == Groups(s[..k + 1]) % UINT64
    ensures k < 9 ==> x + s[k] % 128 * Pow(128, k) % UINT64 == Groups(s[..k + 1])
  {
    AddGroup(x, s[k] % 128, k);
    GroupsSnoc(s[..k], s[k]);
    assert s[..k + 1] == s[..k] + [s[k]];
  }
}
