/** The fixed-field reader: an owned byte sequence with a read position, and
    the big-endian unsigned integers read from it (src/lib.rs read_u8,
    read_u16, read_u32). */
module FieldReader {
  import opened Errors

  type byte = x: int | 0 <= x < 256

  function Pow256(n: nat): (r: nat)
    ensures r >= 1
  {
    if n == 0 then 1 else 256 * Pow256(n - 1)
  }

  /** The unsigned value of `bs`, most significant byte first. */
  function BigEndian(bs: seq<byte>): nat
  {
    if bs == [] then 0 else BigEndian(bs[..|bs| - 1]) * 256 + bs[|bs| - 1]
  }

  /** The `n`-byte big-endian encoding of `x` (what `to_be_bytes` produces). */
  function ToBigEndian(x: nat, n: nat): (bs: seq<byte>)
    ensures |bs| == n
  {
    if n == 0 then [] else ToBigEndian(x / 256, n - 1) + [x % 256]
  }

  lemma {:induction false} BigEndianBound(bs: seq<byte>)
    ensures BigEndian(bs) < Pow256(|bs|)
  {
    if bs != [] {
      BigEndianBound(bs[..|bs| - 1]);
    }
  }

  /** Encoding a value that fits and decoding it gives the value back. */
  lemma {:induction false} BigEndianOfToBigEndian(x: nat, n: nat)
    requires x < Pow256(n)
    ensures BigEndian(ToBigEndian(x, n)) == x
  {
    if n > 0 {
      var bs := ToBigEndian(x, n);
      assert bs[..n - 1] == ToBigEndian(x / 256, n - 1);
      BigEndianOfToBigEndian(x / 256, n - 1);
    }
  }

  /** Decoding bytes and encoding the value at the same width gives the bytes back. */
  lemma {:induction false} ToBigEndianOfBigEndian(bs: seq<byte>)
    ensures ToBigEndian(BigEndian(bs), |bs|) == bs
  {
    if bs != [] {
      var init := bs[..|bs| - 1];
      var v := BigEndian(bs);
      assert v / 256 == BigEndian(init) && v % 256 == bs[|bs| - 1];
      ToBigEndianOfBigEndian(init);
      assert bs == init + [bs[|bs| - 1]];
    }
  }

  /** The `n` bytes at `pos`, provided all of them are present. */
  function BytesAt(data: seq<byte>, pos: nat, n: nat): (r: Result<seq<byte>>)
  {
    if pos + n <= |data| then Ok(data[pos..pos + n]) else Err(Truncated)
  }

  /** read_u8: one byte, or a failure at the end of the data. */
  function U8At(data: seq<byte>, pos: nat): (r: Result<nat>)
    ensures r.Ok? <==> pos < |data|
    ensures r.Ok? ==> r.value == data[pos] && r.value < 256
    ensures r.Err? ==> r.error == Truncated
  {
    var bs :- BytesAt(data, pos, 1);
    assert BigEndian(bs[..0]) == 0;
    Ok(BigEndian(bs))
  }

  /** read_u16: the big-endian value of the next two bytes, or a failure when fewer remain. */
  function U16At(data: seq<byte>, pos: nat): (r: Result<nat>)
    ensures r.Ok? <==> pos + 2 <= |data|
    ensures r.Ok? ==> r.value == data[pos] as int * 256 + data[pos + 1] && r.value < 0x1_0000
    ensures r.Err? ==> r.error == Truncated
  {
    var bs :- BytesAt(data, pos, 2);
    assert BigEndian(bs[..1]) == bs[0] by {
      assert BigEndian(bs[..1][..0]) == 0;
    }
    Ok(BigEndian(bs))
  }

  /** read_u32: the big-endian value of the next four bytes, or a failure when fewer remain. */
  function U32At(data: seq<byte>, pos: nat): (r: Result<nat>)
    ensures r.Ok? <==> pos + 4 <= |data|
    ensures r.Ok? ==> r.value == ((data[pos] as int * 256 + data[pos + 1]) * 256 + data[pos + 2]) * 256 + data[pos + 3]
    ensures r.Ok? ==> r.value < 0x1_0000_0000
    ensures r.Err? ==> r.error == Truncated
  {
    var bs :- BytesAt(data, pos, 4);
    assert BigEndian(bs[..3]) == (bs[0] as int * 256 + bs[1]) * 256 + bs[2] by {
      assert bs[..3][..2] == bs[..2];
      assert bs[..2][..1] == bs[..1];
      assert BigEndian(bs[..1][..0]) == 0;
      assert BigEndian(bs[..1]) == bs[0];
      assert BigEndian(bs[..2]) == bs[0] as int * 256 + bs[1];
    }
    BigEndianBound(bs);
    Ok(BigEndian(bs))
  }

  /** The file being decoded: its bytes and the position of the next read. */
  class Reader {
    const data: seq<byte>
    var pos: nat

    constructor (data: seq<byte>)
      ensures this.data == data && pos == 0
    {
      this.data := data;
      pos := 0;
    }

    /** Reads up to `n` bytes: all of them, or fewer only at the end of the data. */
    method Read(n: nat) returns (buf: seq<byte>)
      modifies this
      ensures buf == if old(pos) + n <= |data| then data[old(pos)..old(pos) + n]
                     else if old(pos) <= |data| then data[old(pos)..]
                     else []
      ensures pos == old(pos) + |buf|
    {
      if pos + n <= |data| {
        buf := data[pos..pos + n];
      } else if pos <= |data| {
        buf := data[pos..];
      } else {
        buf := [];
      }
      pos := pos + |buf|;
    }

    /** seek_relative with a forward offset; seeking past the end succeeds and
        leaves the following read to fail. */
    method SeekRelative(n: nat)
      modifies this
      ensures pos == old(pos) + n
    {
      pos := pos + n;
    }
  }

  method ReadU8(reader: Reader) returns (r: Result<nat>)
    modifies reader
    ensures r == U8At(reader.data, old(reader.pos))
    ensures r.Ok? ==> reader.pos == old(reader.pos) + 1
  {
    var buf := reader.Read(1);
    if |buf| != 1 {
      return Err(Truncated);
    }
    r := Ok(buf[0]);
  }

  method ReadU16(reader: Reader) returns (r: Result<nat>)
    modifies reader
    ensures r == U16At(reader.data, old(reader.pos))
    ensures r.Ok? ==> reader.pos == old(reader.pos) + 2
  {
    var buf := reader.Read(2);
    if |buf| != 2 {
      return Err(Truncated);
    }
    r := Ok(buf[0] as int * 256 + buf[1]);
  }

  method ReadU32(reader: Reader) returns (r: Result<nat>)
    modifies reader
    ensures r == U32At(reader.data, old(reader.pos))
    ensures r.Ok? ==> reader.pos == old(reader.pos) + 4
  {
    var buf := reader.Read(4);
    if |buf| != 4 {
      return Err(Truncated);
    }
    r := Ok(((buf[0] as int * 256 + buf[1]) * 256 + buf[2]) * 256 + buf[3]);
  }
}
