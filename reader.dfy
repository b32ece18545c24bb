/**
 * The byte cursor over an input file (Reader in src/utility.rs, repeated in
 * ep02/src/main.rs and src/structures.rs): a buffer and a position that
 * only moves forward and never passes the end of the buffer.
 */
module ByteReader {
  import opened Wrappers
  import opened Bits

  class Reader {
    var buffer: seq<Byte>
    var pos: nat

    /** The position stays within the buffer. */
    ghost predicate Valid()
      reads this
    {
      pos <= |buffer|
    }

    /** `Reader::new` once the file has been read: a cursor at the first
        byte. */
    constructor (bytes: seq<Byte>)
      ensures Valid()
      ensures buffer == bytes && pos == 0
    {
      buffer := bytes;
      pos := 0;
    }

    /** `Reader::peek`: the byte under the cursor, if there is one. */
    function Peek(): (r: Option<Byte>)
      reads this
      ensures r.Some? <==> pos < |buffer|
      ensures r.Some? ==> r.value == buffer[pos]
    {
      if pos < |buffer| then Some(buffer[pos]) else None
    }

    /** `Reader::read_n`: the next n bytes and a cursor moved past them when
        that many remain; otherwise None and the cursor where it was. */
    method ReadN(n: nat) returns (r: Option<seq<Byte>>)
      requires Valid()
      modifies this
      ensures Valid() && buffer == old(buffer)
      ensures old(pos) + n <= |buffer| ==> r == Some(buffer[old(pos)..old(pos) + n]) && pos == old(pos) + n
      ensures old(pos) + n > |buffer| ==> r == None && pos == old(pos)
    {
      if pos + n <= |buffer| {
        var chunk := buffer[pos..pos + n];
        pos := pos + n;
        r := Some(chunk);
      } else {
        r := None;
      }
    }

    /** `Iterator::next` for Reader: the byte under the cursor and a cursor
        one further on, or None at the end of the buffer. */
    method Next() returns (r: Option<Byte>)
      requires Valid()
      modifies this
      ensures Valid() && buffer == old(buffer)
      ensures old(pos) < |buffer| ==> r == Some(buffer[old(pos)]) && pos == old(pos) + 1
      ensures old(pos) >= |buffer| ==> r == None && pos == old(pos)
    {
      if pos < |buffer| {
        var byte := buffer[pos];
        pos := pos + 1;
        r := Some(byte);
      } else {
        r := None;
      }
    }
  }
}
