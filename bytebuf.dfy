/**
 * The reading side of Netty's ByteBuf, as MiniRpcDecoder uses it: the bytes
 * received so far, a reader index that each read advances, and a marked
 * reader index to roll back to.
 */
module Buffer {
  import opened Bytes

  class ByteBuf {
    /** The bytes between index 0 and the writer index. */
    const data: seq<uint8>
    var readerIndex: nat
    var markedReaderIndex: nat

    ghost predicate Valid()
      reads this
    {
      readerIndex <= |data| && markedReaderIndex <= |data|
    }

    constructor (content: seq<uint8>)
      ensures Valid()
      ensures data == content && readerIndex == 0 && markedReaderIndex == 0
    {
      data := content;
      readerIndex := 0;
      markedReaderIndex := 0;
    }

    function ReadableBytes(): int
      reads this
    {
      |data| - readerIndex
    }

    method MarkReaderIndex()
      requires Valid()
      modifies this`markedReaderIndex
      ensures Valid() && markedReaderIndex == readerIndex
    {
      markedReaderIndex := readerIndex;
    }

    method ResetReaderIndex()
      requires Valid()
      modifies this`readerIndex
      ensures Valid() && readerIndex == markedReaderIndex
    {
      readerIndex := markedReaderIndex;
    }

    /** Reads `width` bytes as one big-endian signed integer. */
    method ReadSigned(width: nat) returns (x: int)
      requires Valid() && 1 <= width <= ReadableBytes()
      modifies this`readerIndex
      ensures Valid() && readerIndex == old(readerIndex) + width
      ensures x == BeSigned(data[old(readerIndex)..readerIndex])
    {
      x := BeSigned(data[readerIndex..readerIndex + width]);
      readerIndex := readerIndex + width;
    }

    method ReadByte() returns (b: int8)
      requires Valid() && ReadableBytes() >= 1
      modifies this`readerIndex
      ensures Valid() && readerIndex == old(readerIndex) + 1
      ensures b == BeSigned(data[old(readerIndex)..readerIndex])
    {
      SignedWidths(data[readerIndex..readerIndex + 1]);
      var x := ReadSigned(1);
      b := x;
    }

    method ReadShort() returns (v: int16)
      requires Valid() && ReadableBytes() >= 2
      modifies this`readerIndex
      ensures Valid() && readerIndex == old(readerIndex) + 2
      ensures v == BeSigned(data[old(readerIndex)..readerIndex])
    {
      SignedWidths(data[readerIndex..readerIndex + 2]);
      var x := ReadSigned(2);
      v := x;
    }

    method ReadInt() returns (v: int32)
      requires Valid() && ReadableBytes() >= 4
      modifies this`readerIndex
      ensures Valid() && readerIndex == old(readerIndex) + 4
      ensures v == BeSigned(data[old(readerIndex)..readerIndex])
    {
      SignedWidths(data[readerIndex..readerIndex + 4]);
      var x := ReadSigned(4);
      v := x;
    }

    method ReadLong() returns (v: int64)
      requires Valid() && ReadableBytes() >= 8
      modifies this`readerIndex
      ensures Valid() && readerIndex == old(readerIndex) + 8
      ensures v == BeSigned(data[old(readerIndex)..readerIndex])
    {
      SignedWidths(data[readerIndex..readerIndex + 8]);
      var x := ReadSigned(8);
      v := x;
    }

    /** Fills dst, front to back, with the next dst.Length readable bytes. */
    method ReadBytes(dst: array<uint8>)
      requires Valid() && dst.Length <= ReadableBytes()
      modifies this`readerIndex, dst
      ensures Valid() && readerIndex == old(readerIndex) + dst.Length
      ensures dst[..] == data[old(readerIndex)..readerIndex]
    {
      var i := 0;
      while i < dst.Length
        invariant 0 <= i <= dst.Length
        invariant readerIndex == old(readerIndex) + i
        invariant dst[..i] == data[old(readerIndex)..readerIndex]
      {
        dst[i] := data[readerIndex];
        readerIndex := readerIndex + 1;
        i := i + 1;
      }
    }
  }
}
