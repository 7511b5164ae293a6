/** Little-endian field access on byte buffers, as done by .NET's
    `BitConverter` on the little-endian machines the tool runs on. */
module Bytes {
  import opened Results

  type byte = b: int | 0 <= b < 0x100
  type u32 = x: int | 0 <= x < 0x1_0000_0000

  const MAX_INT32: int := 0x7FFF_FFFF

  /** `width` bytes starting at `p` lie inside `s`. */
  predicate Fits(s: seq<byte>, p: int, width: nat) {
    0 <= p && p + width <= |s|
  }

  /** The two fields `[p, p+4)` and `[q, q+4)` do not overlap. */
  predicate Apart(p: int, q: int) {
    p + 4 <= q || q + 4 <= p
  }

  function U16(s: seq<byte>, p: int): (r: nat)
    requires Fits(s, p, 2)
    ensures r < 0x1_0000
  {
    s[p] as int + 0x100 * (s[p + 1] as int)
  }

  function U32(s: seq<byte>, p: int): (r: u32)
    requires Fits(s, p, 4)
  {
    s[p] as int + 0x100 * (s[p + 1] as int + 0x100 * (s[p + 2] as int + 0x100 * (s[p + 3] as int)))
  }

  /** C#'s unchecked int arithmetic: the two's-complement wrap-around of `x`. */
  function Wrap32(x: int): (r: int)
    ensures -0x8000_0000 <= r <= MAX_INT32
    ensures -0x8000_0000 <= x <= MAX_INT32 ==> r == x
    ensures MAX_INT32 < x < 0x1_0000_0000 ==> r < 0
  {
    (x + 0x8000_0000) % 0x1_0000_0000 - 0x8000_0000
  }

  /** The four bytes at `p` read as a two's-complement 32-bit integer. */
  function I32(s: seq<byte>, p: int): (r: int)
    requires Fits(s, p, 4)
    ensures -0x8000_0000 <= r <= MAX_INT32
    ensures r == -1 <==> s[p..p + 4] == [0xFF, 0xFF, 0xFF, 0xFF]
    ensures r >= 0 ==> r == U32(s, p)
  {
    var u := U32(s, p);
    if u <= MAX_INT32 then u else u - 0x1_0000_0000
  }

  /** `BitConverter.GetBytes` of a 32-bit value (an unsigned one, or a
      non-negative int), least significant byte first. */
  function LE32(x: u32): (r: seq<byte>)
    ensures |r| == 4 && U32(r, 0) == x
  {
    var x1 := x / 0x100;
    var x2 := x1 / 0x100;
    [x % 0x100, x1 % 0x100, x2 % 0x100, x2 / 0x100]
  }

  /** Encoding is also a left inverse: re-encoding a decoded field gives back
      the field's bytes. */
  lemma LE32OfU32(s: seq<byte>, p: int)
    requires Fits(s, p, 4)
    ensures LE32(U32(s, p)) == s[p..p + 4]
  {
    var y2: int := s[p + 2] as int + 0x100 * (s[p + 3] as int);
    var y1: int := s[p + 1] as int + 0x100 * y2;
    var x: int := s[p] as int + 0x100 * y1;
    assert x == U32(s, p);
    assert x / 0x100 == y1 && x % 0x100 == s[p];
    assert y1 / 0x100 == y2 && y1 % 0x100 == s[p + 1];
    assert y2 / 0x100 == s[p + 3] && y2 % 0x100 == s[p + 2];
  }

  /** Decoding a field whose bytes are an encoding gives back the value. */
  lemma U32OfField(s: seq<byte>, p: int, x: u32)
    requires Fits(s, p, 4) && s[p..p + 4] == LE32(x)
    ensures U32(s, p) == x
  {
    assert s[p..p + 4][0] == s[p] && s[p..p + 4][1] == s[p + 1];
    assert s[p..p + 4][2] == s[p + 2] && s[p..p + 4][3] == s[p + 3];
  }

  // ---- checked access, failing the way BitConverter and Array.CopyTo do ----

  function ReadU16(s: seq<byte>, p: int): (r: Result<nat>)
    ensures r.Ok? <==> Fits(s, p, 2)
    ensures r.Ok? ==> r.value == U16(s, p)
    ensures r.Err? ==> r.error == OutOfRange
  {
    if Fits(s, p, 2) then Ok(U16(s, p)) else Err(OutOfRange)
  }

  function ReadU32(s: seq<byte>, p: int): (r: Result<u32>)
    ensures r.Ok? <==> Fits(s, p, 4)
    ensures r.Ok? ==> r.value == U32(s, p)
    ensures r.Err? ==> r.error == OutOfRange
  {
    if Fits(s, p, 4) then Ok(U32(s, p)) else Err(OutOfRange)
  }

  function ReadI32(s: seq<byte>, p: int): (r: Result<int>)
    ensures r.Ok? <==> Fits(s, p, 4)
    ensures r.Ok? ==> r.value == I32(s, p)
    ensures r.Err? ==> r.error == OutOfRange
  {
    if Fits(s, p, 4) then Ok(I32(s, p)) else Err(OutOfRange)
  }

  /** `buf` with its bytes `[p, p + |w|)` replaced by `w`. */
  function Splice(buf: seq<byte>, p: int, w: seq<byte>): (r: seq<byte>)
    requires Fits(buf, p, |w|)
    ensures |r| == |buf|
    ensures r[p..p + |w|] == w
    ensures forall k :: 0 <= k < |buf| && !(p <= k < p + |w|) ==> r[k] == buf[k]
  {
    var r := buf[..p] + w + buf[p + |w|..];
    assert r[p..p + |w|] == w;
    r
  }

  /** `w.CopyTo(buf, p)`: fails unless the whole of `w` fits at `p`. */
  function Put(buf: seq<byte>, p: int, w: seq<byte>): (r: Result<seq<byte>>)
    ensures r.Ok? <==> Fits(buf, p, |w|)
    ensures r.Ok? ==> r.value == Splice(buf, p, w)
    ensures r.Err? ==> r.error == OutOfRange
  {
    if Fits(buf, p, |w|) then Ok(Splice(buf, p, w)) else Err(OutOfRange)
  }

  /** A splice leaves every slice that does not meet the spliced range alone. */
  lemma SpliceKeeps(buf: seq<byte>, p: int, w: seq<byte>, lo: int, hi: int)
    requires Fits(buf, p, |w|) && 0 <= lo <= hi <= |buf|
    requires hi <= p || p + |w| <= lo
    ensures Splice(buf, p, w)[lo..hi] == buf[lo..hi]
  {
    var r := Splice(buf, p, w);
    assert forall k :: 0 <= k < hi - lo ==> r[lo..hi][k] == r[lo + k] == buf[lo + k];
  }
}
