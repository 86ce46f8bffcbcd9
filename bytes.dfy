/** Bytes and the big-endian ("network order", struct format '!') fields that
    the header codec packs and unpacks. */
module Bytes {

  type Byte = b: int | 0 <= b < 256

  predicate IsByte(x: int) { 0 <= x < 0x100 }
  predicate IsU16(x: int) { 0 <= x < 0x1_0000 }
  predicate IsU32(x: int) { 0 <= x < 0x1_0000_0000 }

  /** struct format 'H': an unsigned 16-bit value, most significant byte first. */
  function BE16(x: int): (r: seq<Byte>)
    requires IsU16(x)
    ensures |r| == 2
  {
    [x / 0x100, x % 0x100]
  }

  function FromBE16(b: seq<Byte>): (x: int)
    requires |b| == 2
    ensures IsU16(x)
  {
    b[0] as int * 0x100 + b[1]
  }

  /** struct format 'L': an unsigned 32-bit value, most significant byte first. */
  function BE32(x: int): (r: seq<Byte>)
    requires IsU32(x)
    ensures |r| == 4
  {
    [x / 0x100_0000, (x / 0x1_0000) % 0x100, (x / 0x100) % 0x100, x % 0x100]
  }

  function FromBE32(b: seq<Byte>): (x: int)
    requires |b| == 4
    ensures IsU32(x)
  {
    b[0] as int * 0x100_0000 + b[1] as int * 0x1_0000 + b[2] as int * 0x100 + b[3]
  }

  /** struct format '4s': a byte string packed into exactly four bytes,
      truncated when longer and padded with zero bytes when shorter. */
  function Fixed4(a: seq<Byte>): (r: seq<Byte>)
    ensures |r| == 4
    ensures |a| == 4 ==> r == a
    ensures forall i :: 0 <= i < 4 ==> r[i] == if i < |a| then a[i] else 0
  {
    if |a| >= 4 then a[..4] else a + seq(4 - |a|, _ => 0)
  }

  /** A Python slice s[lo:hi] with 0 <= lo <= hi: bounds past the end are clipped. */
  function PySlice<T>(s: seq<T>, lo: nat, hi: nat): (r: seq<T>)
    requires lo <= hi
    ensures |r| == if hi <= |s| then hi - lo else if lo <= |s| then |s| - lo else 0
    ensures hi <= |s| ==> r == s[lo..hi]
    ensures hi > |s| && lo <= |s| ==> r == s[lo..]
    ensures lo > |s| ==> r == []
  {
    if hi <= |s| then s[lo..hi] else if lo <= |s| then s[lo..] else []
  }

  lemma BE16RoundTrip(x: int)
    requires IsU16(x)
    ensures FromBE16(BE16(x)) == x
  {
  }

  lemma FromBE16RoundTrip(b: seq<Byte>)
    requires |b| == 2
    ensures BE16(FromBE16(b)) == b
  {
  }

  lemma BE32RoundTrip(x: int)
    requires IsU32(x)
    ensures FromBE32(BE32(x)) == x
  {
    var q1, q2, q3 := x / 0x100, x / 0x1_0000, x / 0x100_0000;
    assert x == q1 * 0x100 + x % 0x100;
    assert q1 == q2 * 0x100 + q1 % 0x100;
    assert q2 == q3 * 0x100 + q2 % 0x100;
    assert q1 % 0x100 == (x / 0x100) % 0x100;
    assert q2 % 0x100 == (x / 0x1_0000) % 0x100;
  }

  lemma FromBE32RoundTrip(b: seq<Byte>)
    requires |b| == 4
    ensures BE32(FromBE32(b)) == b
  {
    var x := FromBE32(b);
    var hi1 := b[0] as int;
    var hi2 := hi1 * 0x100 + b[1];
    var hi3 := hi2 * 0x100 + b[2];
    assert x == hi3 * 0x100 + b[3];
    assert x == hi2 * 0x1_0000 + (b[2] as int * 0x100 + b[3]);
    assert x == hi1 * 0x100_0000 + (b[1] as int * 0x1_0000 + b[2] as int * 0x100 + b[3]);
    assert x / 0x100 == hi3 && x % 0x100 == b[3];
    assert x / 0x1_0000 == hi2 && hi2 % 0x100 == b[1];
    assert x / 0x100_0000 == hi1;
    assert hi3 % 0x100 == b[2];
  }
}
