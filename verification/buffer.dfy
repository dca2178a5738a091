/** The growable byte queue.  Bytes are `char`s; the storage is an array that growth replaces. */
module ByteBuffer {

  function Max(a: int, b: int): int {
    if a > b then a else b
  }

  class Buffer {
    var buf: array<char>
    var writePos: nat
    var readPos: nat

    ghost const initSize: nat
    ghost var added: string     // every byte ever put in
    ghost var removed: string   // every byte ever taken out
    ghost var highWater: nat    // most bytes ever readable and requested together

    /** Positions are ordered, no byte is lost, invented or moved past another, and storage stays bounded. */
    ghost predicate Valid()
      reads this, buf
    {
      && readPos <= writePos <= buf.Length
      && 0 < buf.Length <= Max(initSize, 2 * highWater)
      && added == removed + Readable()
    }

    function Readable(): string
      requires readPos <= writePos <= buf.Length
      reads this, buf
    {
      buf[readPos..writePos]
    }

    /** Storage never exceeds the larger of the initial size and twice the most bytes ever readable and requested. */
    lemma StorageIsBounded(a: int, b: int)
      requires Valid()
      ensures buf.Length <= initSize || buf.Length <= 2 * highWater
      ensures Max(a, b) >= a && Max(a, b) >= b && (Max(a, b) == a || Max(a, b) == b)
    {
    }

    /** The storage is nobody else's: kept from before, or new. */
    twostate predicate SameOrFreshStorage()
      reads this
    {
      buf == old(buf) || fresh(buf)
    }

    constructor (initSize: nat)
      requires initSize > 0
      ensures Valid() && fresh(buf)
      ensures Readable() == "" && added == "" && buf.Length == this.initSize == initSize && highWater == 0
    {
      this.initSize := initSize;
      buf := new char[initSize](_ => '\0');
      writePos, readPos := 0, 0;
      added, removed, highWater := "", "", 0;
    }

    function WritableBytes(): nat
      requires writePos <= buf.Length
      reads this
    {
      buf.Length - writePos
    }

    function ReadableBytes(): nat
      requires readPos <= writePos
      reads this
    {
      writePos - readPos
    }

    function PrependableBytes(): nat
      reads this
    {
      readPos
    }

    /** What readv does to the writable tail: the bytes arrive, the positions do not move yet. */
    method FillTail(bytes: string)
      requires Valid() && |bytes| <= WritableBytes()
      modifies buf
      ensures Valid() && Readable() == old(Readable())
      ensures buf[writePos..writePos + |bytes|] == bytes
    {
      var i := 0;
      while i < |bytes|
        invariant 0 <= i <= |bytes|
        invariant buf[..writePos] == old(buf[..writePos])
        invariant buf[writePos..writePos + i] == bytes[..i]
      {
        buf[writePos + i] := bytes[i];
        i := i + 1;
      }
      assert buf[readPos..writePos] == buf[..writePos][readPos..];
      assert old(buf[readPos..writePos]) == old(buf[..writePos])[readPos..];
    }

    method HasWritten(len: nat)
      requires Valid() && len <= WritableBytes()
      modifies this`writePos, this`added
      ensures Valid() && writePos == old(writePos) + len
      ensures Readable() == old(Readable()) + buf[old(writePos)..writePos]
      ensures added == old(added) + buf[old(writePos)..writePos]
    {
      added := added + buf[writePos..writePos + len];
      writePos := writePos + len;
      assert buf[readPos..writePos] == buf[readPos..old(writePos)] + buf[old(writePos)..writePos];
    }

    method Retrieve(len: nat)
      requires Valid() && len <= ReadableBytes()
      modifies this`readPos, this`removed
      ensures Valid() && readPos == old(readPos) + len
      ensures Readable() == old(Readable())[len..]
      ensures removed == old(removed) + old(Readable())[..len]
    {
      removed := removed + Readable()[..len];
      readPos := readPos + len;
    }

    /** Consumes up to an absolute position, as the source does with a pointer. */
    method RetrieveUntil(pos: nat)
      requires Valid() && readPos <= pos <= writePos
      modifies this`readPos, this`removed
      ensures Valid() && readPos == pos
      ensures Readable() == old(Readable())[pos - old(readPos)..]
      ensures removed == old(removed) + old(Readable())[..pos - old(readPos)]
    {
      Retrieve(pos - readPos);
    }

    /** Zeroes the bytes and resets both positions. */
    method RetrieveAll()
      requires Valid()
      modifies this`readPos, this`writePos, this`removed, buf
      ensures Valid() && readPos == writePos == 0
      ensures Readable() == "" && removed == old(removed) + old(Readable())
      ensures forall i :: 0 <= i < buf.Length ==> buf[i] == '\0'
    {
      ghost var content := Readable();
      var i := 0;
      while i < buf.Length
        invariant 0 <= i <= buf.Length
        invariant removed == old(removed)
        invariant forall k :: 0 <= k < i ==> buf[k] == '\0'
      {
        buf[i] := '\0';
        i := i + 1;
      }
      readPos, writePos := 0, 0;
      removed := removed + content;
      assert removed + "" == removed;
    }

    method RetrieveAllToString() returns (str: string)
      requires Valid()
      modifies this`readPos, this`writePos, this`removed, buf
      ensures Valid() && str == old(Readable())
      ensures Readable() == "" && removed == old(removed) + str
    {
      str := Readable();
      RetrieveAll();
    }

    method Append(str: string)
      requires Valid()
      modifies this, buf
      ensures Valid() && SameOrFreshStorage()
      ensures Readable() == old(Readable()) + str
      ensures added == old(added) + str && removed == old(removed)
      ensures highWater == Max(old(highWater), old(ReadableBytes()) + |str|)
    {
      var _ := EnsureWritable(|str|);
      FillTail(str);
      HasWritten(|str|);
    }

    /** Makes room for len more bytes; one round of extending is always enough. */
    method EnsureWritable(len: nat) returns (rounds: nat)
      requires Valid()
      modifies this, buf
      ensures Valid() && SameOrFreshStorage()
      ensures len <= WritableBytes()
      ensures Readable() == old(Readable()) && added == old(added) && removed == old(removed)
      ensures rounds <= 1
      ensures highWater == Max(old(highWater), old(ReadableBytes()) + len)
    {
      highWater := Max(highWater, ReadableBytes() + len);
      rounds := 0;
      while WritableBytes() < len
        invariant Valid() && SameOrFreshStorage()
        invariant Readable() == old(Readable()) && added == old(added) && removed == old(removed)
        invariant highWater == Max(old(highWater), old(ReadableBytes()) + len)
        invariant rounds == 0 || (rounds == 1 && len <= WritableBytes())
        decreases 1 - rounds
      {
        ExtendSpace(len);
        rounds := rounds + 1;
      }
    }

    /** Grows the storage, or moves the readable bytes to its front. */
    method ExtendSpace(len: nat)
      requires Valid() && WritableBytes() < len && ReadableBytes() + len <= highWater
      modifies this`buf, this`readPos, this`writePos, buf
      ensures Valid() && SameOrFreshStorage()
      ensures len <= WritableBytes() && Readable() == old(Readable())
      ensures old(WritableBytes() + PrependableBytes()) < len <==> fresh(buf)
      ensures old(WritableBytes() + PrependableBytes()) < len ==> readPos == old(readPos) < len
      ensures old(WritableBytes() + PrependableBytes()) >= len ==> readPos == 0
    {
      if WritableBytes() + PrependableBytes() < len {
        Resize(writePos + len + 1);
      } else {
        var readableLen := ReadableBytes();
        MoveToFront();
        readPos := 0;
        writePos := readPos + readableLen;
      }
    }

    /** vector::resize to a larger size: old elements kept, new ones zero. */
    method Resize(size: nat)
      requires readPos <= writePos <= buf.Length < size
      modifies this`buf
      ensures fresh(buf) && buf.Length == size
      ensures buf[..old(buf.Length)] == old(buf[..]) && Readable() == old(Readable())
    {
      var bigger := new char[size](_ => '\0');
      var i := 0;
      while i < buf.Length
        invariant 0 <= i <= buf.Length < bigger.Length && buf == old(buf)
        invariant bigger[..i] == old(buf[..])[..i] && buf[..] == old(buf[..])
      {
        bigger[i] := buf[i];
        i := i + 1;
      }
      buf := bigger;
      assert buf[..writePos] == old(buf[..writePos]) by {
        assert buf[..writePos] == buf[..old(buf.Length)][..writePos];
        assert old(buf[..writePos]) == old(buf[..])[..writePos];
      }
      assert Readable() == buf[..writePos][readPos..];
      assert old(Readable()) == old(buf[..writePos])[readPos..];
    }

    /** std::copy of the readable bytes onto the front; source and target overlap when readPos is small. */
    method MoveToFront()
      requires readPos <= writePos <= buf.Length
      modifies buf
      ensures buf[..writePos - readPos] == old(buf[readPos..writePos])
    {
      var i := 0;
      while i < writePos - readPos
        invariant 0 <= i <= writePos - readPos
        invariant buf[..i] == old(buf[readPos..readPos + i])
        invariant forall k :: i <= k < buf.Length ==> buf[k] == old(buf[k])
      {
        buf[i] := buf[readPos + i];
        i := i + 1;
      }
    }
  }
}
