/** cam_reverse/crypto.py and scripts/dec.py: the "Xq" obfuscation of control payloads. */
module Crypto {
  import opened Bytes
  import opened DataView

  function FlipLowBit(b: Byte): Byte {
    if b % 2 != 0 then b - 1 else b + 1
  }

  function FlipAll(s: Chunk): (t: Chunk)
    ensures |t| == |s|
  {
    seq(|s|, i requires 0 <= i < |s| => FlipLowBit(s[i]))
  }

  /** Cyclic rotation to the left by `r`. */
  function RotL(s: Chunk, r: nat): (t: Chunk)
    requires r <= |s|
    ensures |t| == |s|
  {
    s[r..] + s[..r]
  }

  function Enc(s: Chunk, r: nat): (t: Chunk)
    requires r <= |s|
    ensures |t| == |s|
  {
    RotL(FlipAll(s), r)
  }

  function Dec(s: Chunk, r: nat): (t: Chunk)
    requires r <= |s|
    ensures |t| == |s|
  {
    RotL(FlipAll(s), |s| - r)
  }

  /** Where byte `i` of the decoder's output comes from: `new_buf[buflen - rotate + i]`,
      a negative index counting from the end. */
  function DecSource(n: nat, r: nat, i: nat): (k: int)
    ensures r <= 2 * n && i < Max(n, r) ==> 0 <= k < n
  {
    if r <= i then i - r
    else if n - r + i < 0 then 2 * n - r + i
    else n - r + i
  }

  /** What the decoder writes for any rotation that it survives: for `r <= |s|` this is `Dec`. */
  function DecAny(s: Chunk, r: nat): (t: Chunk)
    requires r <= 2 * |s|
    ensures |t| == Max(|s|, r)
    ensures r <= |s| ==> t == Dec(s, r)
  {
    seq(Max(|s|, r), i requires 0 <= i < Max(|s|, r) => FlipLowBit(s[DecSource(|s|, r, i)]))
  }

  /** When the decoder finishes without an IndexError. */
  predicate DecInBounds(length: nat, offset: nat, n: nat, r: nat) {
    (n == 0 && r == 0) || (offset + Max(n, r) <= length && r <= 2 * n)
  }

  /** The buffer after decoding `n` bytes at `offset`. */
  function Decoded(data: Chunk, offset: nat, n: nat, r: nat): Chunk
    requires DecInBounds(|data|, offset, n, r)
  {
    Splice(data, offset, DecAny(Slice(data, offset, n), r))
  }

  predicate SameUpTo(s: Chunk, t: Chunk, n: nat) {
    |s| == |t| && Slice(s, 0, n) == Slice(t, 0, n)
  }

  function DecHead(flipped: Chunk, r: nat): (h: Chunk)
    requires r <= 2 * |flipped|
    ensures |h| == r
  {
    seq(r, i requires 0 <= i < r => flipped[DecSource(|flipped|, r, i)])
  }

  function DecTail(flipped: Chunk, r: nat): (t: Chunk)
    ensures |t| == Max(0, |flipped| - r)
  {
    if r < |flipped| then flipped[..|flipped| - r] else []
  }

  lemma {:induction false} HeadAndTail(s: Chunk, r: nat)
    requires r <= 2 * |s|
    ensures DecHead(FlipAll(s), r) + DecTail(FlipAll(s), r) == DecAny(s, r)
  {
  }

  /** The decoder's two writing loops produce the decoded buffer. */
  lemma {:induction false} DecodedByRuns(was: Chunk, off: nat, n: nat, r: nat, flipped: Chunk)
    requires DecInBounds(|was|, off, n, r)
    requires flipped == FlipAll(Slice(was, off, n))
    ensures Splice(Splice(was, off + r, DecTail(flipped, r)), off, DecHead(flipped, r)) == Decoded(was, off, n, r)
  {
    hide DecAny, DecHead, DecTail, FlipAll;
    HeadAndTail(Slice(was, off, n), r);
    var head, tail := DecHead(flipped, r), DecTail(flipped, r);
    if tail == [] {
      assert Splice(was, off + r, tail) == was;
    } else {
      SpliceAppend(was, off, head, tail);
    }
  }

  /** `for i in range(len(w)): dv.add(i).write_u8(w[i])`, which raises at the end of the buffer. */
  method WriteRun(dv: DV, w: Chunk) returns (r: Result<()>)
    modifies dv.buf
    ensures r.Ok? <==> w == [] || dv.offset + |w| <= |old(dv.buf.data)|
    ensures r.Ok? ==> dv.buf.data == Splice(old(dv.buf.data), dv.offset, w)
    ensures r.Raise? ==> SameUpTo(dv.buf.data, old(dv.buf.data), dv.offset)
  {
    ghost var was := dv.buf.data;
    for i := 0 to |w|
      invariant |dv.buf.data| == |was|
      invariant i == 0 || dv.offset + i <= |was|
      invariant forall k :: 0 <= k < |was| && !(dv.offset <= k < dv.offset + i) ==> dv.buf.data[k] == was[k]
      invariant forall p :: dv.offset <= p < dv.offset + i ==> dv.buf.data[p] == w[p - dv.offset]
    {
      if dv.offset + i >= |dv.buf.data| {
        return Raise(IndexError);
      }
      dv.Add(i).WriteU8(w[i]);
    }
    return Ok(());
  }

  /** The first loop of both functions: read the window, flipping every byte. */
  method ReadFlipped(dv: DV, n: nat) returns (r: Result<Chunk>)
    ensures r.Ok? <==> n == 0 || dv.offset + n <= |dv.buf.data|
    ensures r.Ok? ==> r.value == FlipAll(Slice(dv.buf.data, dv.offset, n))
  {
    var newBuf: Chunk := [];
    for i := 0 to n
      invariant i == 0 || dv.offset + i <= |dv.buf.data|
      invariant newBuf == FlipAll(Slice(dv.buf.data, dv.offset, i))
    {
      var b :- dv.Add(i).ReadU8();
      newBuf := newBuf + [FlipLowBit(b)];
    }
    return Ok(newBuf);
  }

  /** In-place decoder.  For `rotate > buflen` it behaves as the Python does, negative
      indices included: it then also writes the bytes just after the window, or raises. */
  method XqBytesDec(inoutbuf: DV, buflen: nat, rotate: nat) returns (r: Result<()>)
    modifies inoutbuf.buf
    ensures r.Ok? <==> DecInBounds(|old(inoutbuf.buf.data)|, inoutbuf.offset, buflen, rotate)
    ensures r.Ok? ==> inoutbuf.buf.data == Decoded(old(inoutbuf.buf.data), inoutbuf.offset, buflen, rotate)
    ensures r.Raise? && rotate <= buflen ==> inoutbuf.buf.data == old(inoutbuf.buf.data)
    ensures r.Raise? ==> SameUpTo(inoutbuf.buf.data, old(inoutbuf.buf.data), inoutbuf.offset)
  {
    hide DecAny, Decoded;
    var newBuf :- ReadFlipped(inoutbuf, buflen);
    ghost var was := inoutbuf.buf.data;
    // inside the window just read, so this one cannot raise
    var _ := WriteRun(inoutbuf.Add(rotate), DecTail(newBuf, rotate));
    if rotate > 2 * buflen {
      return Raise(IndexError);
    }
    var _ :- WriteRun(inoutbuf, DecHead(newBuf, rotate));
    DecodedByRuns(was, inoutbuf.offset, buflen, rotate, newBuf);
    return Ok(());
  }

  /** `inoutbuf.add(at).write_u8(b)`, where a negative index counts from the end. */
  method WriteSigned(buf: ByteBuffer, at: int, b: Byte) returns (r: Result<()>)
    modifies buf
    ensures |buf.data| == |old(buf.data)|
    ensures r.Ok? <==> -|buf.data| <= at < |buf.data|
  {
    var k := if at < 0 then at + |buf.data| else at;
    if !(0 <= k < |buf.data|) {
      return Raise(IndexError);
    }
    buf.data := buf.data[k := b];
    return Ok(());
  }

  /** In-place encoder.  A rotation beyond the length runs off the end of the flipped bytes
      and raises, having written some of them before the window. */
  method XqBytesEnc(inoutbuf: DV, buflen: nat, rotate: nat) returns (r: Result<()>)
    modifies inoutbuf.buf
    ensures r.Ok? <==> rotate <= buflen && (buflen == 0 || inoutbuf.offset + buflen <= |old(inoutbuf.buf.data)|)
    ensures r.Ok? ==> inoutbuf.buf.data == Splice(old(inoutbuf.buf.data), inoutbuf.offset,
                                                  Enc(Slice(old(inoutbuf.buf.data), inoutbuf.offset, buflen), rotate))
    ensures r.Raise? && rotate <= buflen ==> inoutbuf.buf.data == old(inoutbuf.buf.data)
    ensures |inoutbuf.buf.data| == |old(inoutbuf.buf.data)|
  {
    var newBuf :- ReadFlipped(inoutbuf, buflen);
    if rotate > buflen {
      var error := RunOff(inoutbuf, newBuf, rotate);
      return Raise(error);
    }
    EncWrite(inoutbuf, newBuf, rotate);
    if buflen == 0 {
      assert newBuf == [] && Enc([], 0) == [];
    }
    return Ok(());
  }

  /** The writes of a rotation beyond the length, up to the one that raises. */
  method RunOff(inoutbuf: DV, newBuf: Chunk, rotate: nat) returns (error: PyError)
    requires |newBuf| < rotate
    modifies inoutbuf.buf
    ensures |inoutbuf.buf.data| == |old(inoutbuf.buf.data)|
  {
    for i := 0 to |newBuf|
      invariant |inoutbuf.buf.data| == |old(inoutbuf.buf.data)|
    {
      var w := WriteSigned(inoutbuf.buf, inoutbuf.offset + |newBuf| - rotate + i, newBuf[i]);
      if w.Raise? {
        return w.error;
      }
    }
    return IndexError;
  }

  /** The encoder's two writing loops, inside the window just read. */
  method EncWrite(inoutbuf: DV, newBuf: Chunk, rotate: nat)
    requires rotate <= |newBuf| && (newBuf == [] || inoutbuf.offset + |newBuf| <= |inoutbuf.buf.data|)
    modifies inoutbuf.buf
    ensures inoutbuf.buf.data == Splice(old(inoutbuf.buf.data), inoutbuf.offset, RotL(newBuf, rotate))
  {
    ghost var was := inoutbuf.buf.data;
    var _ := WriteRun(inoutbuf, newBuf[rotate..]);
    var _ := WriteRun(inoutbuf.Add(|newBuf| - rotate), newBuf[..rotate]);
    if newBuf != [] {
      SpliceAppend(was, inoutbuf.offset, newBuf[rotate..], newBuf[..rotate]);
    }
  }

  /** Decoding undoes encoding and encoding undoes decoding. */
  lemma {:induction false} EncDecInverse(s: Chunk, r: nat)
    requires r <= |s|
    ensures Dec(Enc(s, r), r) == s
    ensures Enc(Dec(s, r), r) == s
  {
    hide FlipAll;
    FlipRotCommute(s, r);
    FlipRotCommute(FlipAll(s), r);
    FlipRotCommute(FlipAll(s), |s| - r);
    RotLCompose(s, r, |s| - r);
    RotLCompose(s, |s| - r, r);
    assert RotL(s, |s|) == s;
  }

  lemma {:induction false} FlipRotCommute(s: Chunk, r: nat)
    requires r <= |s|
    ensures FlipAll(RotL(s, r)) == RotL(FlipAll(s), r)
    ensures FlipAll(FlipAll(s)) == s
  {
    assert FlipAll(RotL(s, r)) == RotL(FlipAll(s), r);
  }

  /** Bit 0 is flipped, and no other. */
  lemma {:induction false} FlipsBitZero(b: Byte)
    ensures FlipLowBit(b) / 2 == b / 2 && FlipLowBit(b) % 2 == 1 - b % 2
  {
  }

  /** Encoding takes each byte from `r` places further on, around the end; decoding from `r`
      places further back. */
  lemma {:induction false} EncAt(s: Chunk, r: nat, i: nat)
    requires r <= |s| && i < |s|
    ensures Enc(s, r)[i] == FlipLowBit(s[if i + r < |s| then i + r else i + r - |s|])
    ensures Dec(s, r)[i] == FlipLowBit(s[if i < r then i + |s| - r else i - r])
  {
  }

  /** A rotation beyond the length writes the end of the flipped window once more, and then
      the whole of it. */
  lemma {:induction false} DecBeyond(s: Chunk, r: nat)
    requires |s| <= r <= 2 * |s|
    ensures DecAny(s, r) == FlipAll(s)[2 * |s| - r..] + FlipAll(s)
  {
  }

  /** Two rotations are one rotation by the sum, modulo the length. */
  lemma {:induction false} RotLCompose(s: Chunk, a: nat, b: nat)
    requires a <= |s| && b <= |s|
    ensures a + b <= |s| ==> RotL(RotL(s, a), b) == RotL(s, a + b)
    ensures a + b > |s| ==> RotL(RotL(s, a), b) == RotL(s, a + b - |s|)
  {
    if a + b <= |s| {
      assert RotL(RotL(s, a), b) == RotL(s, a + b);
    } else {
      assert RotL(RotL(s, a), b) == RotL(s, a + b - |s|);
    }
  }

  /** The two transformations form one cyclic family: encoding by `r` is decoding by
      `n - r`, and two encodings are the plain rotation by the sum of their amounts,
      so that the flips cancel. */
  lemma {:induction false} EncFamily(s: Chunk, a: nat, b: nat)
    requires a <= |s| && b <= |s|
    ensures Enc(s, a) == Dec(s, |s| - a)
    ensures Enc(Enc(s, a), b) == if a + b <= |s| then RotL(s, a + b) else RotL(s, a + b - |s|)
  {
    FlipRotCommute(FlipAll(s), a);
    FlipRotCommute(s, a);
    RotLCompose(s, a, b);
  }

  /** scripts/dec.py: flip every byte from 0x14 on, then move the last four to the front. */
  method ScriptDec(d: Chunk) returns (ret: Chunk)
    ensures |d| >= 0x14 + 4 ==> ret == d[..0x14] + Dec(d[0x14..], 4)
    ensures 0x14 <= |d| < 0x14 + 4 ==> ret == d[..0x14] + FlipAll(d[0x14..])
    ensures |d| < 0x14 ==> ret == d
  {
    var tail := if |d| <= 0x14 then [] else d[0x14..];
    ret := [];
    for i := 0 to |tail|
      invariant ret == FlipAll(tail[..i])
    {
      var b := tail[i];
      if b % 2 != 0 {
        ret := ret + [b - 1];
      } else {
        ret := ret + [b + 1];
      }
    }
    assert tail[..|tail|] == tail;
    var cut := Max(0, |ret| - 4);
    ret := d[..Min(0x14, |d|)] + ret[cut..] + ret[..cut];
  }
}
