/** The fixed buffer that carries an argument vector from wsh to wshd. A char stands
    for one byte of a C string. */
module Messages {
  import opened Common

  const BUF_SIZE: nat := 8192
  const NUL: char := '\0'

  function Packed(ss: seq<string>): string {
    if ss == [] then [] else ss[0] + [NUL] + Packed(ss[1..])
  }

  /** The bytes the strings need, each with its terminator. */
  function Total(ss: seq<string>): nat {
    if ss == [] then 0 else |ss[0]| + 1 + Total(ss[1..])
  }

  function Zeros(n: nat): string { seq(n, _ => NUL) }

  predicate NulFree(s: string) { forall i :: 0 <= i < |s| ==> s[i] != NUL }

  lemma {:induction false} PackedSize(ss: seq<string>)
    ensures |Packed(ss)| == Total(ss)
  {
    if ss != [] { PackedSize(ss[1..]); }
  }

  lemma {:induction false} PackedAppend(ss: seq<string>, s: string)
    ensures Packed(ss + [s]) == Packed(ss) + s + [NUL] && Total(ss + [s]) == Total(ss) + |s| + 1
  {
    if ss == [] {
      assert ss + [s] == [s] && [s][1..] == [];
    } else {
      PackedAppend(ss[1..], s);
      assert (ss + [s])[1..] == ss[1..] + [s];
      assert ss[0] + [NUL] + (Packed(ss[1..]) + s + [NUL]) == Packed(ss) + s + [NUL];
    }
  }

  lemma {:induction false} TotalOfPrefix(ss: seq<string>, k: nat)
    requires k <= |ss|
    ensures Total(ss[..k]) <= Total(ss)
  {
    if k > 0 {
      TotalOfPrefix(ss[1..], k - 1);
      assert ss[..k][1..] == ss[1..][..k - 1];
    }
  }

  /** The string that starts at off, and where the next one starts: strlen on a
      buffer. None when no terminator follows inside the buffer. */
  function CString(buf: string, off: nat): Option<(string, nat)>
    decreases |buf| - off
  {
    if off >= |buf| then None
    else if buf[off] == NUL then Some(([], off + 1))
    else match CString(buf, off + 1)
         case None => None
         case Some((s, end)) => Some(([buf[off]] + s, end))
  }

  function Unpack(buf: string, off: nat, count: nat): Option<seq<string>>
    decreases count
  {
    if count == 0 then Some([]) else
    match CString(buf, off)
    case None => None
    case Some((s, end)) =>
      match Unpack(buf, end, count - 1)
      case None => None
      case Some(ss) => Some([s] + ss)
  }

  /** What the buffer holds after an import of strings that stop fitting at k. */
  ghost predicate Holds(buf: string, ss: seq<string>, k: nat) {
    k <= |ss| && Total(ss[..k]) <= BUF_SIZE && buf == Packed(ss[..k]) + Zeros(BUF_SIZE - Total(ss[..k]))
  }

  lemma NextHolds(buf: string, ss: seq<string>, i: nat, buf': string)
    requires i < |ss| && Holds(buf, ss, i) && Total(ss[..i]) + |ss[i]| + 1 <= BUF_SIZE && |buf| == BUF_SIZE
    requires var off := Total(ss[..i]); buf' == buf[..off] + ss[i] + buf[off + |ss[i]|..]
    ensures Holds(buf', ss, i + 1)
  {
    var off, before := Total(ss[..i]), Packed(ss[..i]);
    PackedSize(ss[..i]);
    PackedAppend(ss[..i], ss[i]);
    assert ss[..i + 1] == ss[..i] + [ss[i]];
    assert buf[..off] == before && buf[off + |ss[i]|..] == [NUL] + Zeros(BUF_SIZE - off - |ss[i]| - 1);
  }

  lemma {:induction false} CStringIs(buf: string, off: nat, len: nat)
    requires off + len < |buf| && buf[off + len] == NUL
    requires forall i :: off <= i < off + len ==> buf[i] != NUL
    ensures CString(buf, off) == Some((buf[off..off + len], off + len + 1))
    decreases len
  {
    if len > 0 {
      CStringIs(buf, off + 1, len - 1);
      assert buf[off..off + len] == [buf[off]] + buf[off + 1..off + len];
    }
  }

  class MsgArray {
    var count: nat
    const buf: array<char>

    constructor ()
      ensures fresh(buf) && buf.Length == BUF_SIZE
    {
      buf := new char[BUF_SIZE];
    }

    /** Succeeds exactly when all the bytes fit; otherwise the strings before the
        first that does not fit stay in the buffer. */
    method Import(ptr: seq<string>) returns (rv: int)
      requires buf.Length == BUF_SIZE
      modifies this, buf
      ensures count == |ptr|
      ensures rv == if Total(ptr) <= BUF_SIZE then 0 else -1
      ensures rv == 0 ==> Holds(buf[..], ptr, |ptr|)
      ensures rv == -1 ==> exists k :: 0 <= k < |ptr| && Holds(buf[..], ptr, k) && Total(ptr[..k + 1]) > BUF_SIZE
    {
      count := |ptr|;
      forall i | 0 <= i < buf.Length { buf[i] := NUL; }
      var off := 0;
      assert buf[..] == Packed(ptr[..0]) + Zeros(BUF_SIZE);
      for i := 0 to |ptr|
        modifies buf
        invariant off == Total(ptr[..i]) && Holds(buf[..], ptr, i)
      {
        PackedAppend(ptr[..i], ptr[i]);
        assert ptr[..i + 1] == ptr[..i] + [ptr[i]];
        ghost var was := buf[..];
        if BUF_SIZE - off < |ptr[i]| + 1 {
          TotalOfPrefix(ptr, i + 1);
          assert Holds(buf[..], ptr, i) && Total(ptr[..i + 1]) > BUF_SIZE;
          return -1;
        }
        Copy(off, ptr[i]);
        NextHolds(was, ptr, i, buf[..]);
        off := off + |ptr[i]| + 1;
      }
      assert ptr[..|ptr|] == ptr;
      rv := 0;
    }

    /** memcpy into the buffer. */
    method Copy(off: nat, s: string)
      requires off + |s| <= buf.Length
      modifies buf
      ensures buf[..] == old(buf[..off]) + s + old(buf[off + |s|..])
    {
      forall i | 0 <= i < |s| { buf[off + i] := s[i]; }
    }

    method StrLen(off: nat) returns (len: nat)
      requires CString(buf[..], off).Some?
      ensures off + len < buf.Length
      ensures CString(buf[..], off) == Some((buf[off..off + len], off + len + 1))
    {
      len := 0;
      while buf[off + len] != NUL
        invariant off + len < buf.Length && CString(buf[..], off + len).Some?
        invariant forall i :: off <= i < off + len ==> buf[i] != NUL
        decreases buf.Length - len
      {
        len := len + 1;
      }
      CStringIs(buf[..], off, len);
    }

    /** Reads stay inside the buffer as long as `count` strings end inside it. */
    method Export() returns (ptr: seq<string>)
      requires Unpack(buf[..], 0, count).Some?
      ensures Some(ptr) == Unpack(buf[..], 0, count)
    {
      ptr := [];
      var off: nat, left: nat := 0, count;
      assert forall ss: seq<string> :: [] + ss == ss;
      while left > 0
        invariant Unpack(buf[..], off, left).Some?
        invariant Unpack(buf[..], 0, count) == Some(ptr + Unpack(buf[..], off, left).value)
      {
        var len := StrLen(off);
        ghost var rest := Unpack(buf[..], off + len + 1, left - 1).value;
        assert ptr + ([buf[off..off + len]] + rest) == ptr + [buf[off..off + len]] + rest;
        ptr := ptr + [buf[off..off + len]];
        off, left := off + len + 1, left - 1;
      }
      assert ptr + [] == ptr;
    }
  }

  lemma CStringAt(before: string, s: string, after: string)
    requires NulFree(s)
    ensures CString(before + s + [NUL] + after, |before|) == Some((s, |before| + |s| + 1))
  {
    var buf := before + s + [NUL] + after;
    assert buf[|before|..|before| + |s|] == s;
    CStringIs(buf, |before|, |s|);
  }

  lemma {:induction false} UnpackPacked(buf: string, before: string, ss: seq<string>, after: string)
    requires forall i :: 0 <= i < |ss| ==> NulFree(ss[i])
    requires buf == before + Packed(ss) + after
    ensures Unpack(buf, |before|, |ss|) == Some(ss)
    decreases |ss|
  {
    if ss != [] {
      var s, more := ss[0], ss[1..];
      PackedHead(before, ss, after);
      CStringAt(before, s, Packed(more) + after);
      UnpackPacked(buf, before + s + [NUL], more, after);
      assert ss == [s] + more;
    }
  }

  lemma PackedHead(before: string, ss: seq<string>, after: string)
    requires ss != []
    ensures before + Packed(ss) + after == before + ss[0] + [NUL] + (Packed(ss[1..]) + after)
    ensures before + Packed(ss) + after == (before + ss[0] + [NUL]) + Packed(ss[1..]) + after
  {
  }

  /** Export gives back what Import stored, in order, empty strings included. */
  lemma ArrayRoundTrip(buf: string, ss: seq<string>)
    requires (forall s :: s in ss ==> NulFree(s)) && Holds(buf, ss, |ss|)
    ensures Unpack(buf, 0, |ss|) == Some(ss)
  {
    assert ss[..|ss|] == ss;
    assert buf == [] + Packed(ss) + Zeros(BUF_SIZE - Total(ss));
    UnpackPacked(buf, [], ss, Zeros(BUF_SIZE - Total(ss)));
  }
}
