/** cam_reverse/dataview.py: a byte cursor.  All cursors made by `Add` share one
    buffer, so a write through any of them is seen through all. */
module DataView {
  import opened Bytes

  /** A Python bytearray: an object with identity whose content, and length, can change. */
  class ByteBuffer {
    var data: Chunk

    constructor (content: Chunk)
      ensures data == content
    {
      data := content;
    }
  }

  datatype DV = DV(buf: ByteBuffer, offset: nat) {

    function Add(n: nat): DV {
      DV(buf, offset + n)
    }

    function ByteLength(): int
      reads buf
    {
      |buf.data| - offset
    }

    function ReadU8(): Result<Byte>
      reads buf
    {
      if offset < |buf.data| then Ok(buf.data[offset]) else Raise(IndexError)
    }

    function ReadU16(): Result<nat>
      reads buf
    {
      if offset + 2 <= |buf.data| then Ok(BE16(buf.data, offset)) else Raise(StructError)
    }

    function ReadU16LE(): Result<nat>
      reads buf
    {
      if offset + 2 <= |buf.data| then Ok(LE16(buf.data, offset)) else Raise(StructError)
    }

    function ReadU32(): Result<nat>
      reads buf
    {
      if offset + 4 <= |buf.data| then Ok(BE32(buf.data, offset)) else Raise(StructError)
    }

    function ReadU32LE(): Result<nat>
      reads buf
    {
      if offset + 4 <= |buf.data| then Ok(LE32(buf.data, offset)) else Raise(StructError)
    }

    function ReadU64(): Result<nat>
      reads buf
    {
      if offset + 8 <= |buf.data| then Ok(BE64(buf.data, offset)) else Raise(StructError)
    }

    /** A slice, so it never raises: it is cropped at the end of the buffer. */
    function ReadByteArray(length: int): Chunk
      reads buf
    {
      Slice(buf.data, offset, length)
    }

    function ReadString(length: int): string
      reads buf
    {
      Latin1(UntilNul(ReadByteArray(length)))
    }

    /** The datagram to put on the wire: from the offset to the end. */
    function ToBytes(): Chunk
      reads buf
    {
      if offset <= |buf.data| then buf.data[offset..] else []
    }

    method WriteU8(v: nat)
      requires offset < |buf.data|
      modifies buf
      ensures buf.data == old(buf.data)[offset := v % 0x100]
    {
      buf.data := buf.data[offset := v % 0x100];
    }

    method WriteU16(v: nat)
      requires offset + 2 <= |buf.data|
      modifies buf
      ensures buf.data == old(buf.data)[offset := v / 0x100 % 0x100][offset + 1 := v % 0x100]
      ensures BE16(buf.data, offset) == v % 0x1_0000
    {
      U16Value(v);
      buf.data := buf.data[offset := v / 0x100 % 0x100][offset + 1 := v % 0x100];
    }

    method WriteU64(v: nat)
      requires offset + 8 <= |buf.data|
      modifies buf
      ensures buf.data == Splice(old(buf.data), offset, U64(v))
    {
      buf.data := Splice(buf.data, offset, U64(v));
    }

    /** A slice assignment: it never raises, and it lengthens the buffer when it runs past the end. */
    method WriteByteArray(w: Chunk)
      modifies buf
      ensures buf.data == Splice(old(buf.data), offset, w)
    {
      buf.data := Splice(buf.data, offset, w);
    }
  }

  /** `DV.alloc` */
  method Alloc(size: nat) returns (dv: DV)
    ensures fresh(dv.buf) && dv.offset == 0
    ensures dv.buf.data == Zeros(size)
  {
    var b := new ByteBuffer(Zeros(size));
    dv := DV(b, 0);
  }
}
