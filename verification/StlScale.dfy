/**
 Scaling a binary STL in place (scripts/bambu-boat.ts, scaleStl): an 80-byte
 header, a 32-bit triangle count, then 50 bytes a triangle: a normal, three
 vertices, and two attribute bytes.
 */
module StlScale {

  type byte = bv8

  const STL_HEADER := 84
  const STL_TRIANGLE := 50

  /** A little-endian 32-bit count. */
  function CountAt(bytes: seq<byte>, at: nat): nat
    requires at + 4 <= |bytes|
  {
    bytes[at] as nat + 0x100 * bytes[at + 1] as nat + 0x1_0000 * bytes[at + 2] as nat
        + 0x100_0000 * bytes[at + 3] as nat
  }

  lemma LowByte(high: nat, low: nat)
    requires low < 256
    ensures (256 * high + low) % 256 == low && (256 * high + low) / 256 == high
  {
  }

  lemma LowestFirst(b0: nat, b1: nat, b2: nat, b3: nat, n: nat)
    requires b0 < 256 && b1 < 256 && b2 < 256 && b3 < 256
    requires n == b0 + 0x100 * b1 + 0x1_0000 * b2 + 0x100_0000 * b3
    ensures n % 256 == b0 && n / 256 % 256 == b1 && n / 256 / 256 % 256 == b2 && n / 256 / 256 / 256 == b3
  {
    LowByte(b1 + 256 * b2 + 0x1_0000 * b3, b0);
    LowByte(b2 + 256 * b3, b1);
    LowByte(b3, b2);
  }

  /** The count's bytes stand lowest first. */
  lemma CountReads(bytes: seq<byte>, at: nat)
    requires at + 4 <= |bytes|
    ensures var n := CountAt(bytes, at);
      && n % 256 == bytes[at] as nat && n / 256 % 256 == bytes[at + 1] as nat
      && n / 256 / 256 % 256 == bytes[at + 2] as nat && n / 256 / 256 / 256 == bytes[at + 3] as nat
  {
    LowestFirst(bytes[at] as nat, bytes[at + 1] as nat, bytes[at + 2] as nat, bytes[at + 3] as nat, CountAt(bytes, at));
  }

  /** Reading a float, scaling it and writing it back, on its four bytes. */
  ghost predicate FourToFour(scale: seq<byte> -> seq<byte>) {
    forall b :: |b| == 4 ==> |scale(b)| == 4
  }

  predicate WellFormed(stl: seq<byte>) {
    |stl| >= STL_HEADER && |stl| == STL_HEADER + CountAt(stl, STL_HEADER - 4) * STL_TRIANGLE
  }

  /** Eighty bytes, the count, and fifty bytes a triangle. */
  lemma WellFormedExactly(stl: seq<byte>)
    ensures WellFormed(stl) <==> |stl| >= 84 && |stl| == 84 + 50 * CountAt(stl, 80)
  {
  }

  /** Where the v-th float of the t-th triangle starts: three of the normal, then nine of the vertices. */
  function FloatAt(t: nat, v: nat): nat {
    STL_HEADER + t * STL_TRIANGLE + v * 4
  }

  /** Whether a byte past the header belongs to a vertex: to one of the last nine floats of its triangle. */
  predicate InVertex(i: nat) {
    i >= STL_HEADER && 12 <= (i - STL_HEADER) % STL_TRIANGLE < 48
  }

  /** Where the float of a vertex byte starts. */
  function FloatStart(i: nat): int {
    i - (i - STL_HEADER) % STL_TRIANGLE % 4
  }

  /** The byte the scaled file has at `i`. */
  ghost function ScaledByte(stl: seq<byte>, scale: seq<byte> -> seq<byte>, i: nat): byte
    requires FourToFour(scale) && i < |stl|
  {
    var at := FloatStart(i);
    if InVertex(i) && 0 <= at <= i < at + 4 <= |stl| then scale(stl[at..at + 4])[i - at] else stl[i]
  }

  /** The bytes of a vertex float, and only they, start at it. */
  lemma FloatBytes(t: nat, v: nat, d: nat)
    requires v < 12 && d < 4
    ensures var i := FloatAt(t, v) + d;
      (InVertex(i) <==> v >= 3) && FloatStart(i) == FloatAt(t, v)
  {
    var r := v * 4 + d;
    assert (t * STL_TRIANGLE + r) % STL_TRIANGLE == r by {
      TriangleRemainder(t, r);
    }
    assert r % 4 == d;
  }

  lemma TriangleRemainder(t: nat, r: nat)
    requires r < STL_TRIANGLE
    ensures (t * STL_TRIANGLE + r) % STL_TRIANGLE == r
  {
  }

  /** Bytes before the first vertex float and after the last one of a triangle are no vertex bytes. */
  lemma OtherBytes(t: nat, r: nat)
    requires r < 12 || 48 <= r < STL_TRIANGLE
    ensures !InVertex(STL_HEADER + t * STL_TRIANGLE + r)
  {
    TriangleRemainder(t, r);
  }

  /** The first `n` bytes are scaled, the rest as they were. */
  ghost predicate ScaledUpTo(stl: seq<byte>, scale: seq<byte> -> seq<byte>, out: seq<byte>, n: nat)
    requires FourToFour(scale)
  {
    && |out| == |stl| && n <= |stl|
    && (forall i :: 0 <= i < n ==> out[i] == ScaledByte(stl, scale, i))
    && (forall i :: n <= i < |stl| ==> out[i] == stl[i])
  }

  /** Write four bytes into a buffer. */
  method WriteFour(out: array<byte>, at: nat, bytes: seq<byte>)
    requires at + 4 <= out.Length && |bytes| == 4
    modifies out
    ensures out[..] == old(out[..at]) + bytes + old(out[at + 4..])
  {
    out[at], out[at + 1], out[at + 2], out[at + 3] := bytes[0], bytes[1], bytes[2], bytes[3];
  }

  /** Scaling the next float takes the scaled part four bytes on. */
  lemma FloatScaled(stl: seq<byte>, scale: seq<byte> -> seq<byte>, out: seq<byte>, out': seq<byte>, t: nat, v: nat)
    requires FourToFour(scale) && 3 <= v < 12 && FloatAt(t, v) + 4 <= |stl|
    requires ScaledUpTo(stl, scale, out, FloatAt(t, v))
    requires var at := FloatAt(t, v); out' == out[..at] + scale(stl[at..at + 4]) + out[at + 4..]
    ensures ScaledUpTo(stl, scale, out', FloatAt(t, v) + 4)
  {
    var at := FloatAt(t, v);
    forall i | at <= i < at + 4 ensures out'[i] == ScaledByte(stl, scale, i) {
      FloatBytes(t, v, i - at);
    }
  }

  /** Bytes of no vertex need no scaling. */
  lemma GapScaled(stl: seq<byte>, scale: seq<byte> -> seq<byte>, out: seq<byte>, n: nat, m: nat)
    requires FourToFour(scale) && ScaledUpTo(stl, scale, out, n) && n <= m <= |stl|
    requires forall i :: n <= i < m ==> !InVertex(i)
    ensures ScaledUpTo(stl, scale, out, m)
  {
  }

  /**
   Scale every vertex about the origin; None when the file is not a binary
   STL. The input is left alone, and each float is read from it.
   */
  method ScaleStl(stl: array<byte>, scale: seq<byte> -> seq<byte>) returns (out: array?<byte>)
    requires FourToFour(scale)
    ensures out == null <==> !WellFormed(stl[..])
    ensures out != null ==> fresh(out) && ScaledUpTo(stl[..], scale, out[..], stl.Length)
  {
    if stl.Length < STL_HEADER {
      return null;
    }
    var count := CountAt(stl[..], STL_HEADER - 4);
    if stl.Length != STL_HEADER + count * STL_TRIANGLE {
      return null;
    }
    var result := new byte[stl.Length](i requires 0 <= i < stl.Length reads stl => stl[i]);
    ghost var bytes := stl[..];
    assert result[..] == bytes;
    GapScaled(bytes, scale, result[..], 0, STL_HEADER);
    for t := 0 to count
      invariant stl[..] == bytes && fresh(result) && result.Length == stl.Length
      invariant ScaledUpTo(bytes, scale, result[..], STL_HEADER + t * STL_TRIANGLE)
    {
      TriangleFits(t, count);
      SkipNormal(bytes, scale, result[..], t);
      for v := 3 to 12
        invariant stl[..] == bytes && fresh(result) && result.Length == stl.Length
        invariant ScaledUpTo(bytes, scale, result[..], FloatAt(t, v))
      {
        var at := FloatAt(t, v);
        ghost var before := result[..];
        WriteFour(result, at, scale(stl[at..at + 4]));
        FloatScaled(bytes, scale, before, result[..], t, v);
      }
      SkipAttributes(bytes, scale, result[..], t);
    }
    out := result;
  }

  lemma TriangleFits(t: nat, count: nat)
    requires t < count
    ensures STL_HEADER + (t + 1) * STL_TRIANGLE <= STL_HEADER + count * STL_TRIANGLE
    ensures (t + 1) * STL_TRIANGLE == t * STL_TRIANGLE + STL_TRIANGLE
  {
  }

  lemma SkipNormal(stl: seq<byte>, scale: seq<byte> -> seq<byte>, out: seq<byte>, t: nat)
    requires FourToFour(scale) && ScaledUpTo(stl, scale, out, STL_HEADER + t * STL_TRIANGLE)
    requires FloatAt(t, 3) <= |stl|
    ensures ScaledUpTo(stl, scale, out, FloatAt(t, 3))
  {
    var n := STL_HEADER + t * STL_TRIANGLE;
    forall i | n <= i < n + 12 ensures !InVertex(i) {
      OtherBytes(t, i - n);
    }
    GapScaled(stl, scale, out, n, FloatAt(t, 3));
  }

  lemma SkipAttributes(stl: seq<byte>, scale: seq<byte> -> seq<byte>, out: seq<byte>, t: nat)
    requires FourToFour(scale) && ScaledUpTo(stl, scale, out, FloatAt(t, 12))
    requires FloatAt(t, 12) + 2 <= |stl|
    ensures ScaledUpTo(stl, scale, out, STL_HEADER + (t + 1) * STL_TRIANGLE)
  {
    var n := STL_HEADER + t * STL_TRIANGLE;
    forall i | n + 48 <= i < n + 50 ensures !InVertex(i) {
      OtherBytes(t, i - n);
    }
    GapScaled(stl, scale, out, FloatAt(t, 12), n + 50);
  }

  /** Each of the nine vertex floats of each triangle is the input's, scaled once. */
  lemma VertexFloatScaled(stl: seq<byte>, scale: seq<byte> -> seq<byte>, out: seq<byte>, t: nat, v: nat)
    requires FourToFour(scale) && WellFormed(stl) && ScaledUpTo(stl, scale, out, |stl|)
    requires t < CountAt(stl, 80) && 3 <= v < 12
    ensures var at := 84 + 50 * t + 4 * v;
      at + 4 <= |stl| && out[at..at + 4] == scale(stl[at..at + 4])
  {
    var at, scaled := FloatAt(t, v), scale(stl[FloatAt(t, v)..][..4]);
    TriangleFits(t, CountAt(stl, STL_HEADER - 4));
    assert stl[at..at + 4] == stl[at..][..4];
    forall i | at <= i < at + 4 ensures out[i] == scaled[i - at] {
      FloatBytes(t, v, i - at);
    }
  }

  /**
   The header, and the normal and the attribute bytes of each triangle, are the
   input's own, and the length is too.
   */
  lemma RestUntouched(stl: seq<byte>, scale: seq<byte> -> seq<byte>, out: seq<byte>, t: nat)
    requires FourToFour(scale) && WellFormed(stl) && ScaledUpTo(stl, scale, out, |stl|)
    requires t < CountAt(stl, 80)
    ensures |out| == |stl| && out[..84] == stl[..84]
    ensures var at := 84 + 50 * t;
      at + 50 <= |stl| && out[at..at + 12] == stl[at..at + 12] && out[at + 48..at + 50] == stl[at + 48..at + 50]
  {
    var at := STL_HEADER + t * STL_TRIANGLE;
    TriangleFits(t, CountAt(stl, STL_HEADER - 4));
    assert forall i :: 0 <= i < STL_HEADER ==> out[i] == stl[i];
    forall i | at <= i < at + 12 || at + 48 <= i < at + 50 ensures out[i] == stl[i] {
      OtherBytes(t, i - at);
    }
  }
}
