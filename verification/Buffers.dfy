/** Byte buffers that codecs append to, and cursors they consume. */
module Buffers {
  import opened Wrappers

  class BytesMut {
    var data: seq<Byte>

    constructor ()
      ensures data == []
    {
      data := [];
    }

    method PutU8(b: Byte)
      modifies this
      ensures data == old(data) + [b]
    {
      data := data + [b];
    }

    /** Two bytes, the higher first. */
    method PutU16(word: int)
      requires 0 <= word < 65536
      modifies this
      ensures data == old(data) + [word / 256, word % 256]
    {
      data := data + [word / 256, word % 256];
    }

    method PutSlice(bytes: seq<Byte>)
      modifies this
      ensures data == old(data) + bytes
    {
      data := data + bytes;
    }

    /** Removes and returns the first `n` bytes. */
    method SplitTo(n: nat) returns (front: seq<Byte>)
      requires n <= |data|
      modifies this
      ensures old(data) == front + data && |front| == n
    {
      front := data[..n];
      data := data[n..];
    }
  }

  class Bytes {
    var data: seq<Byte>

    constructor (bytes: seq<Byte>)
      ensures data == bytes
    {
      data := bytes;
    }

    method GetU8() returns (b: Byte)
      requires data != []
      modifies this
      ensures old(data) == [b] + data
    {
      b := data[0];
      data := data[1..];
    }

    method Advance(n: nat)
      requires n <= |data|
      modifies this
      ensures data == old(data)[n..]
    {
      data := data[n..];
    }

    method SplitTo(n: nat) returns (front: seq<Byte>)
      requires n <= |data|
      modifies this
      ensures front == old(data)[..n] && data == old(data)[n..]
    {
      front := data[..n];
      data := data[n..];
    }
  }

  lemma Assoc(a: seq<Byte>, b: seq<Byte>, c: seq<Byte>)
    ensures a + b + c == a + (b + c)
  {
  }

  /** What an encoder leaves: its bytes appended and counted, or its error. After an
      error the buffer may hold part of the encoding. */
  predicate Appended(before: seq<Byte>, after: seq<Byte>, r: Result<nat>, encoding: Result<seq<Byte>>) {
    match encoding
    case Ok(bytes) => r == Ok(|bytes|) && after == before + bytes
    case Err(e) => r == Err(e) && before <= after
  }
}
