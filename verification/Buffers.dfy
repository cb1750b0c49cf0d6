/** The protocol buffer codec's Buffer: a slice written and patched in place, and read
    through an index. */
module Buffers {
  import opened Common
  import opened Varints
  import opened Wire

  /** How a message that marshals itself did: wholly, but for an unset required field, or not. */
  datatype Marshaled = Whole | Unfinished | Refused

  /** One field as its encoder leaves it. Bytes covers scalars and unrecognized bytes.
      Failing stops with an error other than an unset field, after writing something. */
  datatype Part =
    | Bytes(data: seq<byte>)
    | Nested(name: string, tagcode: seq<byte>, body: seq<Part>)
    | Own(tagcode: seq<byte>, data: seq<byte>, marshaled: Marshaled)
    | Unset(name: string, required: bool)
    | Failing(written: seq<byte>)

  datatype Status = Done | RequiredNotSet(field: string) | Fatal

  function Encoded(m: seq<Part>): seq<byte> {
    if m == [] then [] else EncodedPart(m[0]) + Encoded(m[1..])
  }

  /** An embedded message is its key, its length and its bytes. */
  function EncodedPart(p: Part): seq<byte> {
    match p
    case Bytes(d) => d
    case Nested(_, tagcode, body) => tagcode + Varint(|Encoded(body)|) + Encoded(body)
    case Own(tagcode, data, _) => tagcode + Varint(|data|) + data
    case Unset(_, _) => []
    case Failing(w) => w
  }

  predicate Breaks(m: seq<Part>) {
    m != [] && (BreaksAt(m[0]) || Breaks(m[1..]))
  }

  predicate BreaksAt(p: Part) {
    p.Failing? || (p.Own? && p.marshaled.Refused?) || (p.Nested? && Breaks(p.body))
  }

  /** The path of the first required field that is not set. A message that marshals itself
      does not pass on its own. */
  function Missing(m: seq<Part>): Option<string> {
    if m == [] then None
    else if MissingAt(m[0]).Some? then MissingAt(m[0])
    else Missing(m[1..])
  }

  function MissingAt(p: Part): Option<string> {
    match p
    case Bytes(_) => None
    case Nested(name, _, body) =>
      if Missing(body).Some? then Some(name + "." + Missing(body).value) else None
    case Own(_, _, _) => None
    case Unset(name, required) => if required then Some(name) else None
    case Failing(_) => None
  }

  function StatusOf(breaks: bool, missing: Option<string>): Status {
    if breaks then Fatal else if missing.Some? then RequiredNotSet(missing.value) else Done
  }

  /** What the encoder leaves for an embedded message is read back as its key and exactly
      its bytes, and is skipped as one field. */
  lemma NestedReadsBack(name: string, tag: nat, body: seq<Part>, rest: seq<byte>)
    requires 8 * tag + 2 < UINT64 && |Encoded(body)| < INT63
    ensures var key := Key(tag, 2);
            var s := EncodedPart(Nested(name, key, body)) + rest;
            var n := |Varint(|Encoded(body)|)| + |Encoded(body)|;
            && ReadVarint(s) == Got(8 * tag + 2, |key|)
            && RawBytes(s[|key|..]) == Got(Encoded(body), n)
            && Takes(s[|key|..], 2, n)
  {
    var key, count, msg := Key(tag, 2), Varint(|Encoded(body)|), Encoded(body);
    assert key + count + msg + rest == key + (count + msg + rest);
    VarintRoundTrip(8 * tag + 2, count + msg + rest);
    RawBytesRoundTrip(msg, rest);
  }

  /** The same of a message that marshals itself. */
  lemma OwnReadsBack(tag: nat, data: seq<byte>, marshaled: Marshaled, rest: seq<byte>)
    requires 8 * tag + 2 < UINT64 && |data| < INT63
    ensures var key := Key(tag, 2);
            var s := EncodedPart(Own(key, data, marshaled)) + rest;
            && ReadVarint(s) == Got(8 * tag + 2, |key|)
            && RawBytes(s[|key|..]) == Got(data, |Varint(|data|)| + |data|)
  {
    var key, count := Key(tag, 2), Varint(|data|);
    assert key + count + data + rest == key + (count + data + rest);
    VarintRoundTrip(8 * tag + 2, count + data + rest);
    RawBytesRoundTrip(data, rest);
  }

  lemma Associate(a: seq<byte>, b: seq<byte>, c: seq<byte>)
    ensures a + b + c == a + (b + c)
  {
  }

  lemma {:induction false} EncodedConcat(m: seq<Part>, n: seq<Part>)
    ensures Encoded(m + n) == Encoded(m) + Encoded(n)
  {
    if m == [] {
      assert m + n == n;
    } else {
      EncodedConcat(m[1..], n);
      assert (m + n)[1..] == m[1..] + n && (m + n)[0] == m[0];
      Associate(EncodedPart(m[0]), Encoded(m[1..]), Encoded(n));
    }
  }

  lemma {:induction false} MissingConcat(m: seq<Part>, n: seq<Part>)
    ensures Missing(m + n) == if Missing(m).Some? then Missing(m) else Missing(n)
    ensures Breaks(m + n) <==> Breaks(m) || Breaks(n)
  {
    if m == [] {
      assert m + n == n;
    } else {
      MissingConcat(m[1..], n);
      assert (m + n)[1..] == m[1..] + n;
    }
  }

  /** After parts that are complete, an unset field that is required is named; one inside an
      embedded message by the path to it; and fields that are not set leave no bytes. */
  lemma MissingIsNamed(before: seq<Part>, after: seq<Part>, outer: string, tagcode: seq<byte>, name: string)
    requires Missing(before) == None
    ensures Missing(before + ([Unset(name, true)] + after)) == Some(name)
    ensures Missing(before + ([Nested(outer, tagcode, [Unset(name, true)])] + after)) == Some(outer + "." + name)
    ensures Missing(before + ([Unset(name, false)] + after)) == Missing(after)
    ensures Encoded(before + ([Unset(name, true)] + after)) == Encoded(before) + Encoded(after)
  {
    var bare, inner, free := [Unset(name, true)], [Nested(outer, tagcode, [Unset(name, true)])], [Unset(name, false)];
    MissingConcat(before, bare + after);
    MissingConcat(before, inner + after);
    MissingConcat(before, free + after);
    EncodedConcat(before, bare + after);
    assert (bare + after)[1..] == after && (inner + after)[1..] == after && (free + after)[1..] == after;
    assert Missing(bare) == Some(name);
    assert [] + Encoded(after) == Encoded(after);
  }

  lemma BytesAreCopied(before: seq<Part>, d: seq<byte>, after: seq<Part>)
    ensures Encoded(before + ([Bytes(d)] + after)) == Encoded(before) + (d + Encoded(after))
  {
    EncodedConcat(before, [Bytes(d)] + after);
    assert ([Bytes(d)] + after)[1..] == after;
  }

  /** A field that fails, itself or inside an embedded message, and a message that refuses to
      marshal itself break the encoding; one that was only unfinished does not, nor is what
      it misses reported. */
  lemma FailureBreaks(before: seq<Part>, after: seq<Part>, name: string, tagcode: seq<byte>, d: seq<byte>)
    ensures Breaks(before + ([Failing(d)] + after))
    ensures Breaks(before + ([Nested(name, tagcode, [Failing(d)])] + after))
    ensures Breaks(before + ([Own(tagcode, d, Refused)] + after))
    ensures Breaks(before + ([Own(tagcode, d, Unfinished)] + after)) <==> Breaks(before) || Breaks(after)
    ensures Missing(before) == None ==>
              Missing(before + ([Own(tagcode, d, Unfinished)] + after)) == Missing(after)
  {
    var own := [Own(tagcode, d, Unfinished)];
    assert Breaks([Failing(d)]);
    MissingConcat(before, [Failing(d)] + after);
    MissingConcat(before, [Nested(name, tagcode, [Failing(d)])] + after);
    MissingConcat(before, [Own(tagcode, d, Refused)] + after);
    MissingConcat(before, own + after);
    assert (own + after)[1..] == after;
  }

  /** Wraps to a signed 64-bit integer. */
  function Int64(x: nat): int
    requires x < UINT64
  {
    if x < INT63 then x else x - UINT64
  }

  lemma Rejoin(a: seq<byte>, b: seq<byte>, c: seq<byte>, d: seq<byte>)
    ensures a + b + c + d == a + (b + c + d)
  {
  }

  /** s with t written over it from position k on. */
  function Overlaid(s: seq<byte>, k: nat, t: seq<byte>): seq<byte>
    requires k + |t| <= |s|
  {
    s[..k] + t + s[k + |t|..]
  }

  lemma ShiftedRight(s: seq<byte>, k: nat, room: seq<byte>)
    requires k <= |s|
    ensures var t := Overlaid(s + room, k + |room|, (s + room)[k..|s|]);
            t[..k] == s[..k] && t[k + |room|..] == s[k..]
  {
    assert (s + room)[k..|s|] == s[k..];
  }

  lemma ShiftedLeft(s: seq<byte>, k: nat, x: nat)
    requires x <= k <= |s|
    ensures Overlaid(s, k - x, s[k..|s|])[..|s| - x] == s[..k - x] + s[k..]
  {
    assert s[k..|s|] == s[k..];
  }

  lemma Reserved(prefix: seq<byte>, msg: seq<byte>)
    ensures var s := prefix + [0, 0, 0, 0] + msg;
            s[..|prefix|] == prefix && s[|prefix| + 4..] == msg
  {
  }

  lemma SliceOf(a: array<byte>, i: nat, j: nat, k: nat)
    requires i <= j <= k <= a.Length
    ensures a[i..k][..j - i] == a[i..j]
  {
  }

  lemma DropTake(s: seq<byte>, k: nat, n: nat)
    requires k + n <= |s|
    ensures s[k..][..n] == s[k..k + n]
  {
  }

  class Buffer {
    var data: array<byte>
    var len: nat
    var index: nat

    ghost predicate Valid()
      reads this
    {
      len <= data.Length
    }

    ghost function Contents(): seq<byte>
      requires Valid()
      reads this, data
    {
      data[..len]
    }

    /** The array holds what was has from position k on. */
    ghost predicate SameFrom(k: nat, was: seq<byte>)
      reads this, data
    {
      |was| == data.Length && forall i :: k <= i < |was| ==> data[i] == was[i]
    }

    /** append: in place while the capacity lasts, else a new array that keeps the first len bytes. */
    method Append(bs: seq<byte>)
      requires Valid()
      modifies this`data, this`len, data
      ensures Valid() && Contents() == old(Contents()) + bs
      ensures data == old(data) || fresh(data)
      ensures old(len) + |bs| <= old(data).Length ==> data == old(data) && SameFrom(len, old(data[..]))
    {
      var need := len + |bs|;
      if need > data.Length {
        var capacity :| capacity >= need;
        var grown := new byte[capacity](_ => 0);
        forall i | 0 <= i < len {
          grown[i] := data[i];
        }
        data := grown;
      }
      forall i | 0 <= i < |bs| {
        data[len + i] := bs[i];
      }
      len := need;
    }

    method EncodeVarint(x: nat)
      requires Valid()
      modifies this`data, this`len, data
      ensures Valid() && Contents() == old(Contents()) + Varint(x)
      ensures data == old(data) || fresh(data)
      ensures old(len) + |Varint(x)| <= old(data).Length ==> data == old(data) && SameFrom(len, old(data[..]))
    {
      var y: nat := x;
      ghost var fits := len + |Varint(x)| <= data.Length;
      while y >= 128
        invariant Valid() && (data == old(data) || fresh(data))
        invariant Contents() + Varint(y) == old(Contents()) + Varint(x)
        invariant fits ==> data == old(data) && SameFrom(len, old(data[..]))
        decreases y
      {
        ghost var before := Contents();
        Append([y % 128 + 128]);
        assert before + Varint(y) == Contents() + Varint(y / 128);
        y := y / 128;
      }
      Append([y]);
    }

    method EncodeRawBytes(bs: seq<byte>)
      requires Valid()
      modifies this`data, this`len, data
      ensures Valid() && (data == old(data) || fresh(data))
      ensures Contents() == old(Contents()) + Varint(|bs|) + bs
    {
      EncodeVarint(|bs|);
      Append(bs);
    }

    method EncodeFixed32(x: nat)
      requires Valid()
      modifies this`data, this`len, data
      ensures Valid() && (data == old(data) || fresh(data))
      ensures Contents() == old(Contents()) + LittleBytes(x, 4)
    {
      FourBytesOf(x, 4);
      Append([x % 256, x / 0x100 % 256, x / 0x1_0000 % 256, x / 0x100_0000 % 256]);
    }

    method EncodeFixed64(x: nat)
      requires Valid()
      modifies this`data, this`len, data
      ensures Valid() && (data == old(data) || fresh(data))
      ensures Contents() == old(Contents()) + LittleBytes(x, 8)
    {
      var y := x / 0x1_0000_0000;
      FourBytesOf(x, 8);
      FourBytesOf(y, 4);
      Append([x % 256, x / 0x100 % 256, x / 0x1_0000 % 256, x / 0x100_0000 % 256,
              y % 256, y / 0x100 % 256, y / 0x1_0000 % 256, y / 0x100_0000 % 256]);
    }

    /** copy within the slice, which behaves as if the source were read first. */
    method Copy(to: nat, from: nat, n: nat)
      requires Valid() && from + n <= len && to + n <= len
      modifies data
      ensures Contents() == Overlaid(old(Contents()), to, old(Contents())[from..from + n])
    {
      forall i | 0 <= i < n {
        data[to + i] := data[from + i];
      }
    }

    method MoveRight(iMsg: nat, x: nat)
      requires Valid() && iMsg <= len
      modifies this`data, this`len, data
      ensures Valid() && (data == old(data) || fresh(data)) && len == old(len) + x
      ensures Contents()[..iMsg] == old(Contents())[..iMsg]
      ensures Contents()[iMsg + x..] == old(Contents())[iMsg..]
    {
      ghost var was := Contents();
      var lMsg: nat := len - iMsg;
      Append(seq(x, _ => 0));
      Copy(iMsg + x, iMsg, lMsg);
      ShiftedRight(was, iMsg, seq(x, _ => 0));
    }

    method MoveLeft(iMsg: nat, x: nat)
      requires Valid() && x <= iMsg <= len
      modifies this`len, data
      ensures Valid() && data == old(data) && len == old(len) - x
      ensures Contents() == old(Contents())[..iMsg - x] + old(Contents())[iMsg..]
    {
      ghost var was := Contents();
      Copy(iMsg - x, iMsg, len - iMsg);
      ShiftedLeft(was, iMsg, x);
      ghost var moved := Contents();
      len := len - x;
      assert Contents() == moved[..len];
    }

    /** Moves the message behind four reserved bytes to where it sits behind its length. */
    method MoveMessage(iLen: nat, lLen: nat)
      requires Valid() && iLen + 4 <= len
      modifies this`data, this`len, data
      ensures Valid() && (data == old(data) || fresh(data))
      ensures len == old(len) - 4 + lLen && iLen + lLen <= len
      ensures Contents()[..iLen] == old(Contents())[..iLen]
      ensures Contents()[iLen + lLen..] == old(Contents())[iLen + 4..]
    {
      ghost var was := Contents();
      var iMsg := iLen + 4;
      var x := lLen - 4;
      if x > 0 {
        MoveRight(iMsg, x);
        assert Contents()[..iLen] == Contents()[..iMsg][..iLen] == was[..iMsg][..iLen];
      } else if x < 0 {
        MoveLeft(iMsg, -x);
      }
    }

    /** Overwrites the room for the length. Nothing is reallocated, so reslicing up to the
        old end finds the message again. */
    method WriteLength(iLen: nat, lMsg: nat)
      requires Valid() && len == iLen + |Varint(lMsg)| + lMsg
      modifies this`data, this`len, data
      ensures Valid() && data == old(data) && len == old(len)
      ensures Contents() == old(Contents())[..iLen] + Varint(lMsg) + old(Contents())[len - lMsg..]
    {
      ghost var was := data[..];
      len := iLen;
      EncodeVarint(lMsg);
      ghost var head := Contents();
      len := len + lMsg;
      assert Contents() == head + was[len - lMsg..len];
    }

    /** The end of enc_len_struct: four bytes were reserved at iLen before the message. */
    method PatchLength(iLen: nat)
      requires Valid() && iLen + 4 <= len
      modifies this`data, this`len, data
      ensures Valid() && (data == old(data) || fresh(data))
      ensures Contents() == old(Contents())[..iLen] + Varint(old(len) - iLen - 4) + old(Contents())[iLen + 4..]
    {
      var lMsg: nat := len - (iLen + 4);
      var lLen := SizeVarint(lMsg);
      MoveMessage(iLen, lLen);
      WriteLength(iLen, lMsg);
    }

    method EncStructMessage(tagcode: seq<byte>, m: seq<Part>) returns (status: Status)
      requires Valid()
      modifies this`data, this`len, data
      ensures Valid() && (data == old(data) || fresh(data))
      ensures status == StatusOf(Breaks(m), Missing(m))
      ensures old(Contents()) <= Contents()
      ensures !Breaks(m) ==> Contents() == old(Contents()) + (tagcode + Varint(|Encoded(m)|) + Encoded(m))
      decreases m, 3
    {
      ghost var start := Contents();
      Append(tagcode);
      status := EncLenStruct(m);
      Rejoin(start, tagcode, Varint(|Encoded(m)|), Encoded(m));
    }

    /** Encodes a message preceded by its length. */
    method EncLenStruct(m: seq<Part>) returns (status: Status)
      requires Valid()
      modifies this`data, this`len, data
      ensures Valid() && (data == old(data) || fresh(data))
      ensures status == StatusOf(Breaks(m), Missing(m))
      ensures status.Fatal? <==> Breaks(m)
      ensures forall f :: status == RequiredNotSet(f) <==> !Breaks(m) && Missing(m) == Some(f)
      ensures old(Contents()) <= Contents()
      ensures !Breaks(m) ==> Contents() == old(Contents()) + Varint(|Encoded(m)|) + Encoded(m)
      decreases m, 2
    {
      ghost var prefix := Contents();
      var iLen := len;
      Append([0, 0, 0, 0]);
      status := EncStruct(m);
      if status.Fatal? {
        return;
      }
      Reserved(prefix, Encoded(m));
      PatchLength(iLen);
    }

    /** Encodes the fields in order. An unset required field is remembered, the first one
        only, and encoding goes on. */
    method EncStruct(m: seq<Part>) returns (status: Status)
      requires Valid()
      modifies this`data, this`len, data
      ensures Valid() && (data == old(data) || fresh(data))
      ensures status == StatusOf(Breaks(m), Missing(m))
      ensures old(Contents()) <= Contents()
      ensures !Breaks(m) ==> Contents() == old(Contents()) + Encoded(m)
      decreases m, 1
    {
      status := Done;
      for i := 0 to |m|
        invariant Valid() && (data == old(data) || fresh(data))
        invariant !status.Fatal? && old(Contents()) <= Contents()
        invariant Breaks(m) == Breaks(m[i..])
        invariant Missing(m) == if status.RequiredNotSet? then Some(status.field) else Missing(m[i..])
        invariant !Breaks(m) ==> Contents() + Encoded(m[i..]) == old(Contents()) + Encoded(m)
      {
        ghost var before := Contents();
        var err := EncPart(m[i]);
        assert m[i..][0] == m[i] && m[i..][1..] == m[i + 1..];
        if err.Fatal? {
          return Fatal;
        }
        assert !Breaks(m) ==> Contents() + Encoded(m[i + 1..]) == before + Encoded(m[i..]);
        if status.Done? {
          status := err;
        }
      }
    }

    method EncPart(p: Part) returns (status: Status)
      requires Valid()
      modifies this`data, this`len, data
      ensures Valid() && (data == old(data) || fresh(data))
      ensures status == StatusOf(BreaksAt(p), MissingAt(p))
      ensures old(Contents()) <= Contents()
      ensures !BreaksAt(p) ==> Contents() == old(Contents()) + EncodedPart(p)
      decreases p, 0
    {
      match p
      case Bytes(d) =>
        Append(d);
        status := Done;
      case Unset(name, required) =>
        status := if required then RequiredNotSet(name) else Done;
      case Failing(w) =>
        Append(w);
        status := Fatal;
      case Own(tagcode, data, marshaled) =>
        if marshaled.Refused? {
          return Fatal;
        }
        ghost var start := Contents();
        Append(tagcode);
        EncodeRawBytes(data);
        Rejoin(start, tagcode, Varint(|data|), data);
        status := Done;
      case Nested(name, tagcode, body) =>
        status := EncStructMessage(tagcode, body);
        if status.RequiredNotSet? {
          status := RequiredNotSet(name + "." + status.field);
        }
    }

    ghost predicate Readable()
      reads this
    {
      Valid() && index <= len < INT63
    }

    ghost function Ahead(): seq<byte>
      requires Readable()
      reads this, data
    {
      data[index..len]
    }

    method DecodeVarint() returns (r: Read<nat>)
      requires Readable()
      modifies this`index
      ensures Readable() && index == old(index) + r.used
      ensures r == ReadVarint(old(Ahead()))
    {
      ghost var s := Ahead();
      var i, x := index, 0;
      for k := 0 to MAX_VARINT
        invariant i == index + k <= len && index == old(index)
        invariant ScanVarint(s, 0) == ScanVarint(s, k)
        invariant k < MAX_VARINT ==> x == Groups(s[..k]) < Pow(128, k)
      {
        if i >= len {
          return Failed(UnexpectedEOF, 0);
        }
        var b := data[i];
        i := i + 1;
        NextGroup(s, k, x);
        x := x + b % 128 * Pow(128, k) % UINT64;
        if b < 128 {
          index := i;
          return Got(x, k + 1);
        }
      }
      return Failed(Overflow, 0);
    }

    /** A signed overflow of the end is refused too. */
    method DecodeFixed32() returns (r: Read<nat>)
      requires Readable()
      modifies this`index
      ensures Readable() && index == old(index) + r.used
      ensures r == Fixed(old(Ahead()), 4)
    {
      var i := Int64(index + 4);
      if i < 0 || i > len {
        return Failed(UnexpectedEOF, 0);
      }
      FourBytes(Ahead()[..4]);
      index := i;
      var x: int := data[i - 4] as int + 0x100 * data[i - 3] as int + 0x1_0000 * data[i - 2] as int
                    + 0x100_0000 * data[i - 1] as int;
      return Got(x, 4);
    }

    method DecodeFixed64() returns (r: Read<nat>)
      requires Readable()
      modifies this`index
      ensures Readable() && index == old(index) + r.used
      ensures r == Fixed(old(Ahead()), 8)
    {
      var i := Int64(index + 8);
      if i < 0 || i > len {
        return Failed(UnexpectedEOF, 0);
      }
      ghost var s := Ahead()[..8];
      FourBytes(s);
      FourBytes(s[4..]);
      index := i;
      var low: int := data[i - 8] as int + 0x100 * data[i - 7] as int + 0x1_0000 * data[i - 6] as int
                      + 0x100_0000 * data[i - 5] as int;
      var high: int := data[i - 4] as int + 0x100 * data[i - 3] as int + 0x1_0000 * data[i - 2] as int
                       + 0x100_0000 * data[i - 1] as int;
      return Got(low + 0x1_0000_0000 * high, 8);
    }

    method DecodeRawBytes() returns (r: Read<seq<byte>>)
      requires Readable()
      modifies this`index
      ensures Readable() && index == old(index) + r.used
      ensures r == RawBytes(old(Ahead()))
    {
      ghost var s := Ahead();
      var n := DecodeVarint();
      if n.Failed? {
        return Failed(n.error, n.used);
      }
      var nb := Int64(n.value);
      if nb < 0 {
        return Failed(BadLength, n.used);
      }
      var end := Int64(index + nb);
      if end < index || end > len {
        return Failed(UnexpectedEOF, n.used);
      }
      var bs := data[index..end];
      assert Ahead() == s[n.used..];
      SliceOf(data, index, end, len);
      DropTake(s, n.used, nb);
      r := Got(bs, n.used + nb);
      index := index + nb;
    }

    method SkipField(wire: int) returns (r: Skipped)
      requires Readable()
      modifies this`index
      ensures Readable() && index == old(index) + r.used
      ensures r == Skip(old(Ahead()), wire)
      decreases len - index, 1
    {
      if wire == 0 {
        var v := DecodeVarint();
        r := Moved(v);
      } else if wire == 1 {
        var v := DecodeFixed64();
        r := Moved(v);
      } else if wire == 2 {
        var v := DecodeRawBytes();
        r := Moved(v);
      } else if wire == 5 {
        var v := DecodeFixed32();
        r := Moved(v);
      } else if wire == 3 {
        r := SkipItems();
      } else {
        r := Stuck(UnknownWire, 0);
      }
    }

    /** The start-group case: items up to an end key, whatever its tag. */
    method SkipItems() returns (r: Skipped)
      requires Readable()
      modifies this`index
      ensures Readable() && index == old(index) + r.used
      ensures GroupIs(old(Ahead()), r)
      decreases len - index, 0, 1
    {
      ghost var s := Ahead();
      GoesOnStart(s);
      var done, stop := 0, false;
      while true
        invariant Readable() && index == old(index) + done
        invariant Ahead() == s[done..] && GroupGoesOn(s, done)
        decreases len - index
      {
        stop, r := SkipItem();
        if stop {
          return After(done, r);
        }
        GoesOnTwice(s, done, r.used);
        done := done + r.used;
      }
    }

    /** One round of that loop: it stops at the end key or at an error. */
    method SkipItem() returns (stop: bool, r: Skipped)
      requires Readable()
      modifies this`index
      ensures Readable() && index == old(index) + r.used
      ensures if stop then GroupIs(old(Ahead()), r) else index > old(index) && GroupGoesOn(old(Ahead()), r.used)
      decreases len - index, 0, 0
    {
      ghost var s := Ahead();
      SkipGroupRound(s);
      var key := DecodeVarint();
      if key.Failed? {
        return true, Stuck(key.error, key.used);
      }
      if key.value % 8 == 4 {
        return true, Past(key.used);
      }
      assert Ahead() == s[key.used..];
      r := SkipField(key.value % 8);
      stop, r := r.Stuck?, After(key.used, r);
    }

    /** Skips a field and, if the struct keeps unrecognized fields, appends it there. */
    method SkipAndSave(tag: nat, wire: nat, keeps: bool, unrec: array<byte>, unrecLen: nat)
      returns (r: Skipped, saved: array<byte>, savedLen: nat)
      requires Readable() && unrecLen <= unrec.Length && unrec != data
      modifies this, unrec
      ensures Readable() && data == old(data) && len == old(len) && data[..] == old(data[..])
      ensures index == old(index) + r.used && r == Skip(old(Ahead()), wire)
      ensures savedLen <= saved.Length
      ensures saved[..savedLen] ==
        if r.Past? && keeps then old(unrec[..unrecLen]) + Key(tag, wire) + old(Ahead())[..r.used]
        else old(unrec[..unrecLen])
    {
      var oi := index;
      ghost var s := Ahead();
      r := SkipField(wire);
      saved, savedLen := unrec, unrecLen;
      if r.Stuck? || !keeps {
        return;
      }
      SliceOf(data, oi, index, len);
      saved, savedLen := Save(8 * tag + wire, data[oi..index], unrec, unrecLen);
    }

    /** The buffer is lent to the unrecognized bytes and then given back. */
    method Save(key: nat, skipped: seq<byte>, unrec: array<byte>, unrecLen: nat)
      returns (saved: array<byte>, savedLen: nat)
      requires Valid() && unrecLen <= unrec.Length && unrec != data
      modifies this`data, this`len, unrec
      ensures data == old(data) && len == old(len)
      ensures savedLen <= saved.Length && saved[..savedLen] == old(unrec[..unrecLen]) + Varint(key) + skipped
    {
      var obuf, olen := data, len;
      data, len := unrec, unrecLen;
      EncodeVarint(key);
      Append(skipped);
      saved, savedLen := data, len;
      data, len := obuf, olen;
    }
  }
}
