/** The filename bar: a ten-byte typing buffer whose bytes past the cursor
    are always zero. */
module Typing {
  import opened Common

  class TypingBuffer {
    const buffer: array<Byte>
    var cursor: nat

    /** The cursor stays within the capacity and every byte from the cursor
        on is 0, as in the zeroed buffer the kernel starts with. */
    ghost predicate Valid()
      reads this, buffer
    {
      && buffer.Length == MAX_FILENAME_BYTES
      && cursor <= MAX_FILENAME_BYTES
      && forall i :: cursor <= i < buffer.Length ==> buffer[i] == 0
    }

    /** The name typed so far. */
    function Text(): (t: seq<Byte>)
      reads this, buffer
      requires Valid()
      ensures |t| == cursor <= MAX_FILENAME_BYTES
      ensures t + Fill(0, MAX_FILENAME_BYTES - cursor) == buffer[..]
    {
      buffer[..cursor]
    }

    /** An empty bar over a zeroed buffer. */
    constructor ()
      ensures Valid() && fresh(buffer)
      ensures cursor == 0 && buffer[..] == Fill(0, MAX_FILENAME_BYTES)
    {
      buffer := new Byte[MAX_FILENAME_BYTES](_ => 0);
      cursor := 0;
    }

    /** Appends `c as u8` to the name, unless the name already fills the
        bar, when nothing happens. */
    method TypeChar(c: char)
      requires Valid()
      modifies this, buffer
      ensures Valid()
      ensures old(cursor) == MAX_FILENAME_BYTES ==> cursor == old(cursor) && buffer[..] == old(buffer[..])
      ensures old(cursor) < MAX_FILENAME_BYTES ==>
                cursor == old(cursor) + 1 && buffer[..] == old(buffer[..])[old(cursor) := CharToByte(c)]
      ensures old(cursor) < MAX_FILENAME_BYTES ==> Text() == old(Text()) + [CharToByte(c)]
    {
      if cursor < MAX_FILENAME_BYTES {
        buffer[cursor] := CharToByte(c);
        cursor := cursor + 1;
      }
    }

    /** Drops the last byte of the name, zeroing it; nothing happens on an
        empty name. */
    method Backspace()
      requires Valid()
      modifies this, buffer
      ensures Valid()
      ensures old(cursor) == 0 ==> cursor == 0 && buffer[..] == old(buffer[..])
      ensures old(cursor) > 0 ==> cursor == old(cursor) - 1 && buffer[..] == old(buffer[..])[cursor := 0]
      ensures old(cursor) > 0 ==> Text() == old(Text())[..old(cursor) - 1]
    {
      if cursor > 0 {
        buffer[cursor - 1] := 0;
        cursor := cursor - 1;
      }
    }

    /** Empties the bar: every byte 0 and the cursor at the front. */
    method Clear()
      requires Valid()
      modifies this, buffer
      ensures Valid() && cursor == 0 && Text() == []
      ensures buffer[..] == Fill(0, MAX_FILENAME_BYTES)
    {
      forall i | 0 <= i < buffer.Length {
        buffer[i] := 0;
      }
      cursor := 0;
    }

    /** The cursor and a copy of the whole buffer: the name is the first
        `n` bytes and the rest are 0. */
    method GetBytes() returns (n: nat, bytes: seq<Byte>)
      requires Valid()
      ensures n == cursor && bytes == buffer[..]
      ensures n <= |bytes| == MAX_FILENAME_BYTES
      ensures bytes[..n] == Text()
      ensures forall i :: n <= i < |bytes| ==> bytes[i] == 0
    {
      n := cursor;
      bytes := buffer[..];
    }
  }
}
