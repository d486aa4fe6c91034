/** Growing byte buffers (buffer.c). The length of `data` is the number of allocated bytes. */
module Buffers {
  import opened Basics
  import opened Scanning

  class Buffer {
    var data: array<byte>
    var used: nat

    ghost predicate Valid()
      reads this
    {
      used <= data.Length
    }

    function Contents(): seq<byte>
      requires Valid()
      reads this, data
    {
      data[..used]
    }

    constructor ()
      ensures Valid() && fresh(data) && data.Length == 0 && used == 0
    {
      data := new byte[0];
      used := 0;
    }

    /** bufferResize: grows to `newSize` and keeps the bytes; it never shrinks. */
    method Resize(newSize: nat)
      requires Valid()
      modifies `data
      ensures Valid() && data.Length == if newSize <= old(data.Length) then old(data.Length) else newSize
      ensures data == old(data) || fresh(data)
      ensures data[..old(data.Length)] == old(data[..])
    {
      if newSize <= data.Length {
        return;
      }
      var tmp := new byte[newSize];
      for i := 0 to data.Length
        modifies tmp
        invariant tmp[..i] == data[..i]
      {
        tmp[i] := data[i];
      }
      data := tmp;
    }

    /** bufferCopy: afterwards both buffers hold the same bytes. */
    method Copy(src: Buffer)
      requires Valid() && src.Valid() && src != this && src.data != data
      modifies this, data
      ensures Valid() && (data == old(data) || fresh(data))
      ensures Contents() == old(src.Contents()) && data.Length >= old(data.Length)
    {
      if data.Length < src.used {
        Resize(src.used);
      }
      for i := 0 to src.used
        modifies data
        invariant data[..i] == src.data[..i]
      {
        data[i] := src.data[i];
      }
      used := src.used;
    }

    /** ADD_BLOCK_TO_BUFFER, ADD_STORED_INFO_TO_BUFFER, ADD_STRING_TO_BUFFER: writes at `at`, inside the reservation. */
    method Write(at: nat, src: seq<byte>) returns (next: nat)
      requires at + |src| <= data.Length
      modifies data
      ensures next == at + |src| && data[..next] == old(data[..at]) + src
    {
      StringReplace(data, at, src);
      next := at + |src|;
    }

    /** A block followed by ADD_ZERO_BYTE. */
    method WriteField(at: nat, src: seq<byte>) returns (next: nat)
      requires at + |src| < data.Length
      modifies data
      ensures next == at + |src| + 1 && data[..next] == old(data[..at]) + (src + [NUL])
    {
      next := Write(at, src);
      data[next] := NUL;
      next := next + 1;
      assert data[..next] == data[..next - 1] + [NUL];
    }
  }
}
