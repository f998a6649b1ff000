/** The per-window state: a directory listing with a cursor, or a text editor
    over a fixed-capacity buffer. */
module Modes {
  import opened Common
  import opened Layout
  import opened Lines

  /** The selection in a directory listing. */
  class DirectoryState {
    var cursor: nat

    constructor (cursor: nat)
      ensures this.cursor == cursor
    {
      this.cursor := cursor;
    }

    /** Moves the cursor by `delta` if the result still names one of the
        `fileCount` listed files; otherwise leaves it where it is. */
    method MoveCursor(delta: int, fileCount: nat)
      modifies this
      ensures 0 <= old(cursor) + delta < fileCount ==> cursor == old(cursor) + delta
      ensures !(0 <= old(cursor) + delta < fileCount) ==> cursor == old(cursor)
      ensures old(cursor) < fileCount ==> cursor < fileCount
    {
      var newPos := cursor + delta;
      if newPos >= 0 && newPos < fileCount {
        cursor := newPos;
      }
    }
  }

  /** What a window shows. A `Directory` value is what `KWindowMode::directory`
      builds; an `Editing` value is a copy of an editing state. */
  datatype KWindowMode =
    | Directory(cursor: nat)
    | Editing(filename: seq<Byte>, buffer: seq<Byte>, len: nat, cursor: nat, directoryIndex: nat)

  /** The shape every editing state keeps: a full-width file name, a buffer
      of exactly the editing capacity, and a cursor inside the buffer that
      never passes the length. */
  predicate EditingWellFormed(m: KWindowMode)
  {
    && m.Editing?
    && |m.filename| == MAX_FILENAME_BYTES
    && |m.buffer| == PRACTICAL_FILE_BUFFER_SIZE
    && m.cursor <= m.len
    && m.cursor <= PRACTICAL_FILE_BUFFER_SIZE
  }

  /** `KWindowMode::editing`: a fresh editor over `buffer` whose cursor is at
      the front, `len` bytes behind the length. */
  function EditingMode(filename: seq<Byte>, buffer: seq<Byte>, len: nat, directoryIndex: nat): (m: KWindowMode)
    ensures m.Editing? && m.cursor == 0 && m.len - m.cursor == len
    ensures m.filename == filename && m.buffer == buffer && m.directoryIndex == directoryIndex
    ensures |filename| == MAX_FILENAME_BYTES && |buffer| == PRACTICAL_FILE_BUFFER_SIZE ==> EditingWellFormed(m)
  {
    Editing(filename, buffer, len, 0, directoryIndex)
  }

  /** An editor over a fixed-capacity byte buffer, edited in place. */
  class EditingState {
    const filename: seq<Byte>
    const buffer: array<Byte>
    var len: nat
    var cursor: nat
    const directoryIndex: nat

    ghost predicate Valid()
      reads this
    {
      && |filename| == MAX_FILENAME_BYTES
      && buffer.Length == PRACTICAL_FILE_BUFFER_SIZE
      && cursor <= len
      && cursor <= PRACTICAL_FILE_BUFFER_SIZE
    }

    /** The state as a window mode value. The one `EditingState` struct of
        the code appears twice here: as the `KWindowMode.Editing` value a
        kernel slot holds, and as this object the in-place operations run
        on. `Mode` and `FromMode` convert between the two. */
    function Mode(): (m: KWindowMode)
      reads this, buffer
      ensures Valid() ==> EditingWellFormed(m)
    {
      Editing(filename, buffer[..], len, cursor, directoryIndex)
    }

    /** Materialises a window's editing state as an object of its own. */
    constructor FromMode(m: KWindowMode)
      requires EditingWellFormed(m)
      ensures Valid() && fresh(buffer) && Mode() == m
    {
      filename := m.filename;
      buffer := new Byte[|m.buffer|](i requires 0 <= i < |m.buffer| => m.buffer[i]);
      len := m.len;
      cursor := m.cursor;
      directoryIndex := m.directoryIndex;
    }

    /** Copies bytes of `data` to the cursor onward until `data` or the
        buffer runs out: exactly `min(|data|, capacity - cursor)` bytes land
        at `buffer[old cursor ..]`, the rest of the buffer is untouched, and
        cursor and length both advance by that count. */
    method Write(data: seq<Byte>)
      requires Valid()
      modifies this, buffer
      ensures Valid()
      ensures var n := Min(|data|, PRACTICAL_FILE_BUFFER_SIZE - old(cursor));
              cursor == old(cursor) + n && len == old(len) + n
      ensures len - cursor == old(len) - old(cursor)
      ensures forall i :: 0 <= i < buffer.Length ==>
                buffer[i] == if old(cursor) <= i < cursor then data[i - old(cursor)] else old(buffer[i])
    {
      var dataCursor := 0;
      while cursor < PRACTICAL_FILE_BUFFER_SIZE && dataCursor < |data|
        invariant Valid()
        invariant old(cursor) <= cursor
        invariant dataCursor == cursor - old(cursor) <= |data|
        invariant len == old(len) + dataCursor
        invariant forall i :: 0 <= i < buffer.Length ==>
                    buffer[i] == if old(cursor) <= i < cursor then data[i - old(cursor)] else old(buffer[i])
      {
        buffer[cursor] := data[dataCursor];
        cursor := cursor + 1;
        len := len + 1;
        dataCursor := dataCursor + 1;
      }
    }

    /** Removes the byte before the cursor: cursor and length step back
        together and the vacated byte becomes 0. Nothing happens at the
        front of the buffer, so the length never underflows. */
    method Backspace()
      requires Valid()
      modifies this, buffer
      ensures Valid()
      ensures len - cursor == old(len) - old(cursor)
      ensures old(cursor) == 0 ==> cursor == 0 && len == old(len) && buffer[..] == old(buffer[..])
      ensures old(cursor) > 0 ==> cursor == old(cursor) - 1 && len == old(len) - 1
      ensures old(cursor) > 0 ==> buffer[..] == old(buffer[..])[cursor := 0]
    {
      if cursor > 0 {
        cursor := cursor - 1;
        buffer[cursor] := 0;
        len := len - 1;
      }
    }

    /** Stores `c as u8` at the cursor and advances cursor and length,
        unless the cursor is already at the capacity, when nothing happens. */
    method TypeChar(c: char)
      requires Valid()
      modifies this, buffer
      ensures Valid()
      ensures len - cursor == old(len) - old(cursor)
      ensures old(cursor) == PRACTICAL_FILE_BUFFER_SIZE ==>
                cursor == old(cursor) && len == old(len) && buffer[..] == old(buffer[..])
      ensures old(cursor) < PRACTICAL_FILE_BUFFER_SIZE ==>
                cursor == old(cursor) + 1 && len == old(len) + 1 &&
                buffer[..] == old(buffer[..])[old(cursor) := CharToByte(c)]
    {
      if cursor < PRACTICAL_FILE_BUFFER_SIZE {
        buffer[cursor] := CharToByte(c);
        cursor := cursor + 1;
        len := len + 1;
      }
    }

    /** Counts the wrapped lines of the text before the first 0 byte. */
    method LineCount(lineWidth: nat) returns (count: nat)
      ensures count == LineCountOf(buffer[..], lineWidth)
    {
      count := 1;
      var at, lineLen := 0, 0;
      while at < buffer.Length && buffer[at] != 0
        invariant at <= buffer.Length + 1
        invariant count + CountFrom(buffer[..], lineWidth, at, lineLen) == LineCountOf(buffer[..], lineWidth)
        decreases buffer.Length + 1 - at
      {
        if buffer[at] == NEWLINE {
          count := count + 1;
          at := at + 2;
          lineLen := 0;
        } else if lineLen == lineWidth {
          count := count + 1;
          at := at + 1;
          lineLen := 0;
        } else {
          at := at + 1;
          lineLen := lineLen + 1;
        }
      }
    }

    /** Line `line` of the buffer, padded with spaces to the window width,
        if that line ends before the end of the buffer. */
    method ReadLine(line: nat) returns (r: Option<seq<Byte>>)
      ensures r == ReadLineOf(buffer[..], line)
    {
      ghost var buf := buffer[..];
      var lineBuf := new Byte[WINDOW_WIDTH](_ => SPACE);
      var currentLine, lineStart, lineLen := 0, 0, 0;
      ReadingStarts(buf, line);
      assert lineBuf[..] == Fill(SPACE, WINDOW_WIDTH);
      while currentLine <= line && lineStart + lineLen < buffer.Length
        invariant Reading(buf, line, currentLine, lineStart, lineLen, lineBuf[..])
        decreases line + 1 - currentLine, WINDOW_WIDTH - lineLen
      {
        var b := buffer[lineStart + lineLen];
        assert b == buf[lineStart + lineLen];
        if b == NEWLINE {
          ReadingNewline(buf, line, currentLine, lineStart, lineLen, lineBuf[..]);
          currentLine := currentLine + 1;
          lineStart := lineStart + lineLen + 1;
          lineLen := 0;
        } else if lineLen == WINDOW_WIDTH {
          ReadingWrap(buf, line, currentLine, lineStart, lineLen, lineBuf[..]);
          currentLine := currentLine + 1;
          lineStart := lineStart + lineLen;
          lineLen := 0;
        } else {
          ReadingByte(buf, line, currentLine, lineStart, lineLen, lineBuf[..]);
          if currentLine == line {
            lineBuf[lineLen] := b;
          }
          lineLen := lineLen + 1;
        }
      }
      if currentLine > line {
        r := Some(lineBuf[..]);
      } else {
        ReadingRunsOut(buf, line, currentLine, lineStart, lineLen, lineBuf[..]);
        r := None;
      }
    }
  }
}
