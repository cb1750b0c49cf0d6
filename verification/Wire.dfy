/** Skipping fields by wire type, against a grammar of fields with nested groups. */
module Wire {
  import opened Common
  import opened Varints

  /** The count-delimited bytes at the front of s. The count is converted to a signed
      64-bit integer, so counts from 2^63 on are refused as negative. */
  function RawBytes(s: seq<byte>): (r: Read<seq<byte>>)
    ensures r.used <= |s|
  {
    match ReadVarint(s)
    case Failed(e, used) => Failed(e, used)
    case Got(n, used) =>
      if n >= INT63 then Failed(BadLength, used)
      else if used + n > |s| then Failed(UnexpectedEOF, used)
      else Got(s[used..used + n], used + n)
  }

  function LittleEndian(s: seq<byte>): nat {
    if s == [] then 0 else s[0] + 256 * LittleEndian(s[1..])
  }

  /** The number in the next width bytes, lowest first. */
  function Fixed(s: seq<byte>, width: nat): (r: Read<nat>)
    ensures r.used <= |s|
  {
    if width <= |s| then Got(LittleEndian(s[..width]), width) else Failed(UnexpectedEOF, 0)
  }

  function LittleBytes(x: nat, width: nat): (s: seq<byte>)
    ensures |s| == width
    decreases width
  {
    if width == 0 then [] else [x % 256] + LittleBytes(x / 256, width - 1)
  }

  lemma {:induction false} LittleRoundTrip(x: nat, width: nat)
    requires x < Pow(256, width)
    ensures LittleEndian(LittleBytes(x, width)) == x
    decreases width
  {
    if width > 0 {
      LittleRoundTrip(x / 256, width - 1);
      assert LittleBytes(x, width)[1..] == LittleBytes(x / 256, width - 1);
    }
  }

  /** Reading a fixed-width number inverts writing it, whatever follows. */
  lemma FixedRoundTrip(x: nat, width: nat, rest: seq<byte>)
    requires x < Pow(256, width)
    ensures Fixed(LittleBytes(x, width) + rest, width) == Got(x, width)
  {
    LittleRoundTrip(x, width);
    assert (LittleBytes(x, width) + rest)[..width] == LittleBytes(x, width);
  }

  lemma FourBytes(s: seq<byte>)
    requires |s| >= 4
    ensures LittleEndian(s) == s[0] + 0x100 * s[1] + 0x1_0000 * s[2] + 0x100_0000 * s[3]
              + 0x1_0000_0000 * LittleEndian(s[4..])
  {
    assert s[1..][1..] == s[2..] && s[2..][1..] == s[3..] && s[3..][1..] == s[4..];
    assert LittleEndian(s[3..]) == s[3] + 256 * LittleEndian(s[4..]);
    assert LittleEndian(s[2..]) == s[2] + 256 * LittleEndian(s[3..]);
    assert LittleEndian(s[1..]) == s[1] + 256 * LittleEndian(s[2..]);
  }

  lemma FourBytesOf(x: nat, width: nat)
    requires width >= 4
    ensures LittleBytes(x, width) ==
              [x % 256, x / 0x100 % 256, x / 0x1_0000 % 256, x / 0x100_0000 % 256]
              + LittleBytes(x / 0x1_0000_0000, width - 4)
  {
    var x1, x2, x3, x4 := x / 0x100, x / 0x1_0000, x / 0x100_0000, x / 0x1_0000_0000;
    assert x1 / 256 == x2 && x2 / 256 == x3 && x3 / 256 == x4;
    assert LittleBytes(x3, width - 3) == [x3 % 256] + LittleBytes(x4, width - 4);
    assert LittleBytes(x2, width - 2) == [x2 % 256] + LittleBytes(x3, width - 3);
    assert LittleBytes(x1, width - 1) == [x1 % 256] + LittleBytes(x2, width - 2);
  }

  datatype Skipped = Past(used: nat) | Stuck(error: Error, used: nat)

  function Moved<T>(r: Read<T>): (m: Skipped)
    ensures m.used == r.used && (m.Past? <==> r.Got?)
  {
    match r
    case Got(_, used) => Past(used)
    case Failed(e, used) => Stuck(e, used)
  }

  function After(n: nat, r: Skipped): Skipped {
    match r
    case Past(used) => Past(n + used)
    case Stuck(e, used) => Stuck(e, n + used)
  }

  /** What skip does to the bytes ahead of the index. */
  function Skip(s: seq<byte>, wire: int): (r: Skipped)
    ensures r.used <= |s|
    decreases |s|, 1
  {
    if wire == 0 then Moved(ReadVarint(s))
    else if wire == 1 then Moved(Fixed(s, 8))
    else if wire == 2 then Moved(RawBytes(s))
    else if wire == 3 then SkipGroup(s)
    else if wire == 5 then Moved(Fixed(s, 4))
    else Stuck(UnknownWire, 0)
  }

  /** The loop over the items of a group, up to its end key. */
  function SkipGroup(s: seq<byte>): (r: Skipped)
    ensures r.used <= |s|
    decreases |s|, 0
  {
    match ReadVarint(s)
    case Failed(e, used) => Stuck(e, used)
    case Got(key, used) =>
      if key % 8 == 4 then Past(used)
      else
        var item := Skip(s[used..], key % 8);
        if item.Stuck? then After(used, item)
        else After(used + item.used, SkipGroup(s[used + item.used..]))
  }

  /** A field after its key. Varints are kept as the bytes they were written with. */
  datatype Field =
    | Scalar(varint: seq<byte>)
    | Fixed64(bytes: seq<byte>)
    | Delimited(count: seq<byte>, bytes: seq<byte>)
    | Group(items: Items)
    | Fixed32(bytes: seq<byte>)

  datatype Items = End(key: seq<byte>) | Item(key: seq<byte>, field: Field, rest: Items)

  function WireOf(f: Field): nat {
    match f
    case Scalar(_) => 0
    case Fixed64(_) => 1
    case Delimited(_, _) => 2
    case Group(_) => 3
    case Fixed32(_) => 5
  }

  predicate IsField(f: Field) {
    match f
    case Scalar(v) => IsVarint(v)
    case Fixed64(b) => |b| == 8
    case Delimited(count, b) => IsVarint(count) && Groups(count) % UINT64 == |b| < INT63
    case Group(items) => AreItems(items)
    case Fixed32(b) => |b| == 4
  }

  predicate AreItems(items: Items) {
    && IsVarint(items.key)
    && match items
       case End(key) => Groups(key) % UINT64 % 8 == 4
       case Item(key, f, rest) => Groups(key) % UINT64 % 8 == WireOf(f) && IsField(f) && AreItems(rest)
  }

  function FieldBytes(f: Field): seq<byte> {
    match f
    case Scalar(v) => v
    case Fixed64(b) => b
    case Delimited(count, b) => count + b
    case Group(items) => ItemsBytes(items)
    case Fixed32(b) => b
  }

  function ItemsBytes(items: Items): seq<byte> {
    match items
    case End(key) => key
    case Item(key, f, rest) => key + FieldBytes(f) + ItemsBytes(rest)
  }

  lemma RawBytesOf(count: seq<byte>, b: seq<byte>, rest: seq<byte>)
    requires IsField(Delimited(count, b))
    ensures RawBytes(count + b + rest) == Got(b, |count| + |b|)
  {
    assert count + b + rest == count + (b + rest);
    ReadVarintOf(count, b + rest);
  }

  /** What follows a count: a count of 2^63 or more is refused as negative, a larger one than
      there are bytes as the end of the input, and the index is then behind the count. */
  lemma RawBytesFails(count: seq<byte>, rest: seq<byte>)
    requires IsVarint(count)
    ensures var n := Groups(count) % UINT64;
            && (n >= INT63 ==> RawBytes(count + rest) == Failed(BadLength, |count|))
            && (|rest| < n < INT63 ==> RawBytes(count + rest) == Failed(UnexpectedEOF, |count|))
  {
    ReadVarintOf(count, rest);
  }

  /** Reading a count-delimited string inverts writing it, whatever follows. */
  lemma RawBytesRoundTrip(b: seq<byte>, rest: seq<byte>)
    requires |b| < INT63
    ensures IsField(Delimited(Varint(|b|), b))
    ensures RawBytes(Varint(|b|) + b + rest) == Got(b, |Varint(|b|)| + |b|)
  {
    VarintRoundTrip(|b|, []);
    ReadVarintOf(Varint(|b|), []);
    RawBytesOf(Varint(|b|), b, rest);
  }

  /** skip consumes exactly one field, with groups nested to any depth. */
  lemma {:induction false} SkipTakesField(f: Field, rest: seq<byte>)
    requires IsField(f)
    ensures Takes(FieldBytes(f) + rest, WireOf(f), |FieldBytes(f)|)
    decreases f
  {
    match f
    case Scalar(v) => ReadVarintOf(v, rest);
    case Fixed64(_) =>
    case Delimited(count, b) => RawBytesOf(count, b, rest);
    case Group(items) => SkipTakesItems(items, rest);
    case Fixed32(_) =>
  }

  predicate Takes(s: seq<byte>, wire: int, n: nat) {
    Skip(s, wire) == Past(n)
  }

  predicate GroupTakes(s: seq<byte>, n: nat) {
    SkipGroup(s) == Past(n)
  }

  predicate GroupIs(s: seq<byte>, r: Skipped) {
    SkipGroup(s) == r
  }

  /** After its first n bytes, what is left of the group is skipped from there. */
  ghost predicate GroupGoesOn(s: seq<byte>, n: nat) {
    n <= |s| && forall r :: GroupIs(s[n..], r) ==> GroupIs(s, After(n, r))
  }

  /** One round of the loop over a group. */
  lemma SkipGroupRound(s: seq<byte>)
    ensures match ReadVarint(s)
            case Failed(e, u) => GroupIs(s, Stuck(e, u))
            case Got(x, u) =>
              if x % 8 == 4 then GroupIs(s, Past(u))
              else
                var item := Skip(s[u..], x % 8);
                if item.Stuck? then GroupIs(s, After(u, item)) else GroupGoesOn(s, u + item.used)
  {
  }

  lemma GoesOnStart(s: seq<byte>)
    ensures GroupGoesOn(s, 0)
  {
    assert s[0..] == s;
  }

  lemma GoesOnTwice(s: seq<byte>, a: nat, b: nat)
    requires GroupGoesOn(s, a) && GroupGoesOn(s[a..], b)
    ensures GroupGoesOn(s, a + b)
  {
    var c := a + b;
    assert s[a..][b..] == s[c..];
    forall r | GroupIs(s[c..], r) ensures GroupIs(s, After(c, r)) {
      assert GroupIs(s[a..], After(b, r));
      assert After(a, After(b, r)) == After(c, r);
    }
  }

  lemma SkipGroupStep(s: seq<byte>, x: nat, u: nat, after: seq<byte>, n: nat, tail: seq<byte>, m: nat)
    requires u + n <= |s| && after == s[u..] && tail == s[u + n..]
    requires ReadVarint(s) == Got(x, u) && x % 8 != 4
    requires Takes(after, x % 8, n) && GroupTakes(tail, m)
    ensures GroupTakes(s, u + n + m)
  {
  }

  lemma Cut(a: seq<byte>, b: seq<byte>, c: seq<byte>)
    ensures (a + (b + c))[|a|..] == b + c && (a + (b + c))[|a| + |b|..] == c
  {
  }

  lemma SkipGroupOn(key: seq<byte>, x: nat, item: seq<byte>, tail: seq<byte>, m: nat)
    requires ReadVarint(key + (item + tail)) == Got(x, |key|) && x % 8 != 4
    requires Takes(item + tail, x % 8, |item|)
    requires GroupTakes(tail, m)
    ensures GroupTakes(key + (item + tail), |key| + |item| + m)
  {
    Cut(key, item, tail);
    SkipGroupStep(key + (item + tail), x, |key|, item + tail, |item|, tail, m);
  }

  lemma Regroup(key: seq<byte>, item: seq<byte>, more: seq<byte>, rest: seq<byte>)
    ensures key + item + more + rest == key + (item + (more + rest))
  {
  }

  lemma {:induction false} SkipTakesItems(items: Items, rest: seq<byte>)
    requires AreItems(items)
    ensures GroupTakes(ItemsBytes(items) + rest, |ItemsBytes(items)|)
    decreases items
  {
    match items
    case End(key) =>
      ReadVarintOf(key, rest);
    case Item(key, f, more) =>
      var tail := ItemsBytes(more) + rest;
      ReadVarintOf(key, FieldBytes(f) + tail);
      SkipTakesField(f, tail);
      SkipTakesItems(more, rest);
      SkipGroupOn(key, Groups(key) % UINT64, FieldBytes(f), tail, |ItemsBytes(more)|);
      Regroup(key, FieldBytes(f), ItemsBytes(more), rest);
  }

  /** Conversely, whatever skip consumes is a field of that wire type. */
  lemma {:induction false} SkipFindsField(s: seq<byte>, wire: int, n: nat) returns (f: Field)
    requires Takes(s, wire, n)
    ensures n <= |s| && IsField(f) && WireOf(f) == wire && FieldBytes(f) == s[..n]
    decreases |s|, 1
  {
    if wire == 0 {
      ReadVarintIff(s, n);
      f := Scalar(s[..n]);
    } else if wire == 1 {
      f := Fixed64(s[..8]);
    } else if wire == 2 {
      var u := ReadVarint(s).used;
      ReadVarintIff(s, u);
      f := Delimited(s[..u], s[u..n]);
      assert s[..u] + s[u..n] == s[..n];
    } else if wire == 3 {
      var items := SkipFindsItems(s, n);
      f := Group(items);
    } else {
      f := Fixed32(s[..4]);
    }
  }

  lemma {:induction false} SkipFindsItems(s: seq<byte>, n: nat) returns (items: Items)
    requires GroupTakes(s, n)
    ensures n <= |s| && AreItems(items) && ItemsBytes(items) == s[..n]
    decreases |s|, 0
  {
    var head := ReadVarint(s);
    ReadVarintIff(s, head.used);
    if head.value % 8 == 4 {
      items := End(s[..head.used]);
    } else {
      items := SkipFindsMore(s, n, head.used, head.value);
    }
  }

  lemma {:induction false} SkipFindsMore(s: seq<byte>, n: nat, u: nat, x: nat) returns (items: Items)
    requires GroupTakes(s, n) && ReadVarint(s) == Got(x, u) && x % 8 != 4
    requires u <= |s| && IsVarint(s[..u]) && Groups(s[..u]) % UINT64 == x
    ensures n <= |s| && AreItems(items) && ItemsBytes(items) == s[..n]
    decreases |s|, 0, 0
  {
    var k, m := GroupParts(s, n);
    var f := SkipFindsField(s[u..], x % 8, k);
    var rest := SkipFindsItems(s[u + k..], m);
    items := Item(s[..u], f, rest);
    ItemIs(s[..u], f, rest);
    Joined(s, u, k, m);
  }

  lemma ItemIs(key: seq<byte>, f: Field, rest: Items)
    requires IsVarint(key) && Groups(key) % UINT64 % 8 == WireOf(f) && IsField(f) && AreItems(rest)
    ensures AreItems(Item(key, f, rest)) && ItemsBytes(Item(key, f, rest)) == key + FieldBytes(f) + ItemsBytes(rest)
  {
  }

  /** A group that goes on after its first key: an item of k bytes, and m bytes more. */
  lemma GroupParts(s: seq<byte>, n: nat) returns (k: nat, m: nat)
    requires GroupTakes(s, n) && ReadVarint(s).Got? && ReadVarint(s).value % 8 != 4
    ensures var u := ReadVarint(s).used;
            && Takes(s[u..], ReadVarint(s).value % 8, k)
            && u + k <= |s| && GroupTakes(s[u + k..], m)
            && n == u + k + m <= |s|
  {
    var u := ReadVarint(s).used;
    k := Skip(s[u..], ReadVarint(s).value % 8).used;
    m := SkipGroup(s[u + k..]).used;
  }

  lemma Joined(s: seq<byte>, u: nat, n: nat, m: nat)
    requires u + n + m <= |s|
    ensures s[..u] + s[u..][..n] + s[u + n..][..m] == s[..u + n + m]
  {
  }

  ghost predicate StartsWithField(s: seq<byte>, wire: int, n: nat) {
    n <= |s| && exists f :: IsField(f) && WireOf(f) == wire && FieldBytes(f) == s[..n]
  }

  /** skip gets past n bytes exactly when those bytes are one field of that wire type. */
  lemma SkipIff(s: seq<byte>, wire: int, n: nat)
    ensures Skip(s, wire) == Past(n) <==> StartsWithField(s, wire, n)
  {
    if Skip(s, wire) == Past(n) {
      var f := SkipFindsField(s, wire, n);
    }
    if StartsWithField(s, wire, n) {
      var f :| IsField(f) && WireOf(f) == wire && FieldBytes(f) == s[..n];
      assert s[..n] + s[n..] == s;
      SkipTakesField(f, s[n..]);
    }
  }

  /** An end-group key on its own and the wire types 6 and up are refused where they stand. */
  lemma SkipRefuses(s: seq<byte>, wire: int)
    requires wire < 0 || wire == 4 || wire > 5
    ensures Skip(s, wire) == Stuck(UnknownWire, 0)
  {
  }

  /** The key a skipped field is saved under. */
  function Key(tag: nat, wire: nat): seq<byte> {
    Varint(8 * tag + wire)
  }

  /** A saved field reads back as the same key and is skipped whole again. */
  lemma SavedFieldReadsBack(s: seq<byte>, tag: nat, wire: nat, rest: seq<byte>)
    requires 8 * tag + wire < UINT64
    requires Skip(s, wire).Past?
    ensures var used := Skip(s, wire).used;
            && ReadVarint(Key(tag, wire) + (s[..used] + rest)) == Got(8 * tag + wire, |Key(tag, wire)|)
            && Skip(s[..used] + rest, wire) == Past(used)
  {
    var f := SkipFindsField(s, wire, Skip(s, wire).used);
    SkipTakesField(f, rest);
    VarintRoundTrip(8 * tag + wire, s[..Skip(s, wire).used] + rest);
  }
}
