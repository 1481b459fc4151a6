// The sliding byte buffer: bytes are written behind the readable part and read from its front; the storage
// is compacted or grown to make room.

module Buffers {

  type byte = b: int | 0 <= b < 256

  const INITIAL_SIZE: nat := 1024

  function Min(a: nat, b: nat): nat { if a <= b then a else b }

  lemma Moved(taken: seq<byte>, rest: seq<byte>, k: nat)
    requires k <= |rest|
    ensures taken + rest[..k] + rest[k..] == taken + rest
  {
    assert rest == rest[..k] + rest[k..];
  }

  class Buffer {
    var buff: array<byte>
    var readIndex: nat
    var writeIndex: nat
    /** All bytes ever written, and all bytes ever read or dropped. */
    ghost var written: seq<byte>
    ghost var taken: seq<byte>

    /** Bytes leave in the order in which they came. */
    ghost predicate Valid()
      reads this, buff
    {
      readIndex <= writeIndex <= buff.Length && taken + Contents() == written
    }

    /** The readable bytes. */
    ghost function Contents(): seq<byte>
      requires readIndex <= writeIndex <= buff.Length
      reads this, buff
    {
      buff[readIndex..writeIndex]
    }

    constructor (initialSize: nat)
      ensures Valid() && fresh(buff) && buff.Length == initialSize && Contents() == [] && written == []
    {
      buff := new byte[initialSize](_ => 0);
      readIndex, writeIndex := 0, 0;
      written, taken := [], [];
    }

    function ReadableBytes(): int
      reads this
    {
      writeIndex - readIndex
    }

    function WritableBytes(): int
      reads this
    {
      buff.Length - writeIndex
    }

    /** Puts bytes into the writable part, as a receive or a serializer does, without counting them. */
    method Fill(data: seq<byte>)
      requires Valid() && |data| <= WritableBytes()
      modifies buff
      ensures Valid() && Contents() == old(Contents())
      ensures buff[writeIndex..writeIndex + |data|] == data
    {
      ghost var before := Contents();
      for i := 0 to |data|
        invariant buff[writeIndex..writeIndex + i] == data[..i] && Contents() == before
      {
        buff[writeIndex + i] := data[i];
      }
    }

    method HasWritten(n: nat)
      requires Valid()
      modifies this
      ensures Valid() && buff == old(buff) && taken == old(taken) && readIndex == old(readIndex)
      ensures n <= old(WritableBytes()) ==>
                writeIndex == old(writeIndex) + n && Contents() == old(Contents() + buff[writeIndex..writeIndex + n])
      ensures n > old(WritableBytes()) ==> writeIndex == old(writeIndex) && Contents() == old(Contents())
    {
      if n <= WritableBytes() {
        ghost var before := Contents();
        writeIndex := writeIndex + n;
        written := taken + Contents();
        assert Contents() == before + buff[old(writeIndex)..writeIndex];
      }
    }

    /** Drops n bytes, or all there are; then the whole storage can be written again. */
    method HasReaded(n: nat)
      requires Valid()
      modifies this
      ensures Valid() && buff == old(buff) && written == old(written)
      ensures Contents() == old(Contents())[Min(n, old(ReadableBytes()))..]
      ensures taken == old(taken) + old(Contents())[..Min(n, old(ReadableBytes()))]
      ensures WritableBytes() == if n < old(ReadableBytes()) then old(WritableBytes()) else buff.Length
    {
      ghost var k := Min(n, ReadableBytes());
      ghost var before := Contents();
      if n < ReadableBytes() {
        readIndex := readIndex + n;
        assert Contents() == before[k..];
      } else {
        readIndex, writeIndex := 0, 0;
        assert Contents() == before[k..];
      }
      Moved(taken, before, k);
      taken := taken + before[..k];
    }

    method ReadString(n: nat) returns (s: seq<byte>)
      requires Valid()
      modifies this
      ensures Valid() && buff == old(buff) && written == old(written)
      ensures s + Contents() == old(Contents()) && |s| == Min(n, old(ReadableBytes())) && taken == old(taken) + s
      ensures WritableBytes() == if n < old(ReadableBytes()) then old(WritableBytes()) else buff.Length
    {
      var len := if n > ReadableBytes() then ReadableBytes() else n;
      s := buff[readIndex..readIndex + len];
      HasReaded(len);
    }

    method MakeSpace(n: nat)
      requires Valid() && n > WritableBytes()
      modifies this, buff
      ensures Valid() && Contents() == old(Contents()) && taken == old(taken) && written == old(written)
      ensures n <= WritableBytes() && (buff == old(buff) || fresh(buff))
      ensures buff == old(buff) <==> old(ReadableBytes()) + n <= old(buff.Length)
      ensures buff.Length != old(buff.Length) ==> buff.Length < old(ReadableBytes()) + 2 * n
      ensures buff.Length >= old(buff.Length)
    {
      if readIndex + WritableBytes() < n {
        var storage, last := buff, buff.Length;
        buff := new byte[writeIndex + n](
          i requires 0 <= i reads storage => if i < storage.Length then storage[i] else 0);
        assert Contents() == old(Contents());
      } else {
        if readIndex == 0 { return; }
        var count := ReadableBytes();
        Compact(count);
        readIndex := 0;
        writeIndex := count;
      }
    }

    /** The forward copy over the overlap. */
    method Compact(count: nat)
      requires Valid() && count == ReadableBytes() && readIndex > 0
      modifies buff
      ensures buff[..count] == old(Contents())
    {
      ghost var before := buff[..];
      for i := 0 to count
        invariant forall k :: 0 <= k < i ==> buff[k] == before[readIndex + k]
        invariant forall k :: i <= k < buff.Length ==> buff[k] == before[k]
      {
        buff[i] := buff[readIndex + i];
      }
    }

    method EnsureWritable(n: nat)
      requires Valid()
      modifies this, buff
      ensures Valid() && Contents() == old(Contents()) && taken == old(taken) && written == old(written)
      ensures n <= WritableBytes() && (buff == old(buff) || fresh(buff))
      ensures buff == old(buff) <==> old(ReadableBytes()) + n <= old(buff.Length)
      ensures n <= old(WritableBytes()) ==> buff == old(buff) && writeIndex == old(writeIndex)
      ensures buff.Length != old(buff.Length) ==> buff.Length < old(ReadableBytes()) + 2 * n
      ensures buff.Length >= old(buff.Length)
    {
      if n > WritableBytes() { MakeSpace(n); }
    }

    /** write: appends, and grows the storage to less than the old readable bytes and twice the new ones, and only if
        what is readable and what is new do not fit into it together. */
    method Write(data: seq<byte>)
      requires Valid()
      modifies this, buff
      ensures Valid() && Contents() == old(Contents()) + data && taken == old(taken) && written == old(written) + data
      ensures buff == old(buff) || fresh(buff)
      ensures data != [] ==> (buff == old(buff) <==> old(ReadableBytes()) + |data| <= old(buff.Length))
      ensures |data| <= old(WritableBytes()) ==> buff == old(buff) && writeIndex == old(writeIndex) + |data|
      ensures buff.Length != old(buff.Length) ==> buff.Length < old(ReadableBytes()) + 2 * |data|
    {
      if data == [] { return; }
      EnsureWritable(|data|);
      Fill(data);
      HasWritten(|data|);
      assert written == old(written) + data by {
        assert taken + (old(Contents()) + data) == (taken + old(Contents())) + data;
      }
    }
  }
}
