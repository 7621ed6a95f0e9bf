/** Bytes, Python slices, big- and little-endian integers, and the outcome of a call
    that may raise.  Shared by every other module. */
module Bytes {

  /** One element of a Python `bytes` or `bytearray`. */
  type Byte = b: int | 0 <= b < 256

  type Chunk = seq<Byte>

  /** The exceptions that the modelled code can raise. */
  datatype PyError = StructError | IndexError | ValueError | TypeError | UnicodeError | ListenerError

  /** A returned value, or a raised exception. */
  datatype Result<+T> = Ok(value: T) | Raise(error: PyError) {
    predicate IsFailure() {
      Raise?
    }

    function PropagateFailure<U>(): Result<U>
      requires Raise?
    {
      Raise(error)
    }

    function Extract(): T
      requires Ok?
    {
      value
    }
  }

  datatype Option<+T> = None | Some(value: T)

  function Min(a: int, b: int): int {
    if a <= b then a else b
  }

  function Max(a: int, b: int): int {
    if a <= b then b else a
  }

  /** `s[lo : lo + n]` with Python's clamping; a non-positive `n` gives the empty slice. */
  function Slice(s: Chunk, lo: nat, n: int): Chunk {
    if n <= 0 || |s| <= lo then [] else s[lo..Min(lo + n, |s|)]
  }

  /** `s[lo : lo + |w|] = w` with Python's clamping: writing across the end lengthens `s`. */
  function Splice(s: Chunk, lo: nat, w: Chunk): Chunk {
    s[..Min(lo, |s|)] + w + s[Min(lo + |w|, |s|)..]
  }

  lemma {:induction false} SliceOfSlice(s: Chunk, lo: nat, hi: nat, a: nat, b: nat)
    requires a <= b <= hi - lo && hi <= |s| && lo <= hi
    ensures s[lo..hi][a..b] == s[lo + a..lo + b]
  {
    var x, y := s[lo..hi][a..b], s[lo + a..lo + b];
    forall k | 0 <= k < b - a
      ensures x[k] == y[k]
    {
      assert x[k] == s[lo..hi][a + k];
    }
  }

  lemma {:induction false} SpliceTail(s: Chunk, lo: nat, w: Chunk)
    requires lo + |w| == |s|
    ensures Splice(s, lo, w) == s[..lo] + w
  {
  }

  lemma {:induction false} SpliceAppend(was: Chunk, lo: nat, a: Chunk, b: Chunk)
    requires lo + |a| + |b| <= |was|
    ensures Splice(Splice(was, lo, a), lo + |a|, b) == Splice(was, lo, a + b)
    ensures Splice(Splice(was, lo + |a|, b), lo, a) == Splice(was, lo, a + b)
  {
  }

  function Zeros(n: nat): (z: Chunk) {
    seq(n, _ => 0)
  }

  function BE16(s: Chunk, i: nat): nat
    requires i + 2 <= |s|
  {
    s[i] as int * 0x100 + s[i + 1] as int
  }

  function LE16(s: Chunk, i: nat): nat
    requires i + 2 <= |s|
  {
    s[i + 1] as int * 0x100 + s[i] as int
  }

  function BE32(s: Chunk, i: nat): nat
    requires i + 4 <= |s|
  {
    BE16(s, i) * 0x1_0000 + BE16(s, i + 2)
  }

  function LE32(s: Chunk, i: nat): nat
    requires i + 4 <= |s|
  {
    LE16(s, i + 2) * 0x1_0000 + LE16(s, i)
  }

  function BE64(s: Chunk, i: nat): nat
    requires i + 8 <= |s|
  {
    BE32(s, i) * 0x1_0000_0000 + BE32(s, i + 4)
  }

  /** `struct.pack(">H", v & 0xFFFF)` */
  function U16(v: nat): (w: Chunk)
    ensures |w| == 2
  {
    [v / 0x100 % 0x100, v % 0x100]
  }

  function U16LE(v: nat): (w: Chunk)
    ensures |w| == 2
  {
    [v % 0x100, v / 0x100 % 0x100]
  }

  function U32(v: nat): Chunk {
    U16(v / 0x1_0000) + U16(v)
  }

  function U32LE(v: nat): Chunk {
    U16LE(v) + U16LE(v / 0x1_0000)
  }

  /** `struct.pack(">Q", v & 0xFFFFFFFFFFFFFFFF)` */
  function U64(v: nat): Chunk {
    U32(v / 0x1_0000_0000) + U32(v)
  }

  lemma {:induction false} SplitWord(a: Byte, b: Byte, c: Byte, d: Byte)
    ensures var v: nat := (a as int * 0x100 + b as int) * 0x1_0000 + (c as int * 0x100 + d as int);
            U16(v / 0x1_0000) == [a, b] && U16(v) == [c, d]
  {
    var hi: nat, lo: nat := a as int * 0x100 + b as int, c as int * 0x100 + d as int;
    assert (hi * 0x1_0000 + lo) / 0x1_0000 == hi;
    U16Mod(hi, lo);
  }

  lemma {:induction false} U32OfBE32(s: Chunk, i: nat)
    requires i + 4 <= |s|
    ensures U32(BE32(s, i)) == s[i..i + 4]
  {
    SplitWord(s[i], s[i + 1], s[i + 2], s[i + 3]);
  }

  lemma {:induction false} U32Mod(hi: nat, lo: nat)
    ensures U32(hi * 0x1_0000_0000 + lo) == U32(lo)
  {
    var v := hi * 0x1_0000_0000 + lo;
    assert v == (hi * 0x1_0000) * 0x1_0000 + lo;
    assert v / 0x1_0000 == hi * 0x1_0000 + lo / 0x1_0000;
    U16Mod(hi, lo / 0x1_0000);
    U16Mod(hi * 0x1_0000, lo);
  }

  /** The low 16 bits are what is written. */
  lemma {:induction false} U16Value(v: nat)
    ensures v / 0x100 % 0x100 * 0x100 + v % 0x100 == v % 0x1_0000
  {
    var hi, lo := v / 0x100, v % 0x100;
    assert v == hi / 0x100 * 0x1_0000 + (hi % 0x100 * 0x100 + lo);
  }

  lemma {:induction false} FitsU16(v: nat)
    requires v < 0x1_0000
    ensures v % 0x1_0000 == v
  {
  }

  /** Reading back a written 16-bit field. */
  lemma {:induction false} ReadU16Field(s: Chunk, i: nat, v: nat)
    requires i + 2 <= |s| && s[i..i + 2] == U16(v)
    ensures BE16(s, i) == v % 0x1_0000
  {
    U16Value(v);
    assert s[i] == s[i..i + 2][0] && s[i + 1] == s[i..i + 2][1];
  }

  lemma {:induction false} ReadU16LEField(s: Chunk, i: nat, v: nat)
    requires i + 2 <= |s| && s[i..i + 2] == U16LE(v)
    ensures LE16(s, i) == v % 0x1_0000
  {
    U16Value(v);
    assert s[i] == s[i..i + 2][0] && s[i + 1] == s[i..i + 2][1];
  }

  lemma {:induction false} U16Mod(hi: nat, lo: nat)
    ensures U16(hi * 0x1_0000 + lo) == U16(lo)
  {
    var v := hi * 0x1_0000 + lo;
    var q, low := lo / 0x100, lo % 0x100;
    assert v == (hi * 0x100 + q) * 0x100 + low;
    assert v / 0x100 == hi * 0x100 + q && v % 0x100 == low;
    assert (hi * 0x100 + q) % 0x100 == q % 0x100;
  }

  /** Writing a big-endian word back gives the bytes it was read from. */
  lemma {:induction false} U64OfBE64(s: Chunk, i: nat)
    requires i + 8 <= |s|
    ensures U64(BE64(s, i)) == s[i..i + 8]
  {
    U32OfBE32(s, i);
    U32OfBE32(s, i + 4);
    U32Mod(BE32(s, i), BE32(s, i + 4));
    assert BE64(s, i) / 0x1_0000_0000 == BE32(s, i);
  }

  /** A Latin-1 string decodes byte for byte. */
  function Latin1(s: Chunk): string {
    seq(|s|, i requires 0 <= i < |s| => s[i] as char)
  }

  predicate IsLatin1(s: string) {
    forall i :: 0 <= i < |s| ==> s[i] as int < 256
  }

  /** `s.encode("latin-1")`, for a string that it accepts. */
  function EncodeLatin1(s: string): Chunk
    requires IsLatin1(s)
  {
    seq(|s|, i requires 0 <= i < |s| => s[i] as int)
  }

  /** The bytes before the first NUL, or all of them. */
  function UntilNul(s: Chunk): (r: Chunk)
    ensures r <= s
    ensures 0 !in r
    ensures |r| < |s| ==> s[|r|] == 0
  {
    if s == [] || s[0] == 0 then [] else [s[0]] + UntilNul(s[1..])
  }

  lemma {:induction false} UntilNulOfPadded(s: Chunk, rest: Chunk)
    requires 0 !in s
    requires rest == [] || rest[0] == 0
    ensures UntilNul(s + rest) == s
  {
    if s == [] {
      assert s + rest == rest;
    } else {
      assert (s + rest)[1..] == s[1..] + rest;
      UntilNulOfPadded(s[1..], rest);
    }
  }
}
