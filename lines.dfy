/** Wrap-aware line addressing over an editing buffer.

    A line ends at a newline byte or once it holds `w` bytes (the wrap width);
    the newline itself belongs to no line. `ScanLine` and `LineStart` state
    the rule `EditingState::read_line` applies, `ReadLineOf` is what it
    returns, and `LineCountOf` is what `EditingState::line_count` returns.
    The two methods disagree about where lines start; `FixedLineCountOf` is
    the count that agrees with `read_line`. */
module Lines {
  import opened Common
  import opened Layout

  /** A line that ends before the end of the buffer: how many bytes it holds
      and where the line after it starts. */
  datatype Line = Line(len: nat, next: nat)

  /** No newline among `buf[from..to]`. */
  predicate NoNewline(buf: seq<Byte>, from: nat, to: nat)
    requires to <= |buf|
  {
    forall i :: from <= i < to ==> buf[i] != NEWLINE
  }

  /** One more byte that is not a newline extends a newline-free range. */
  lemma NoNewlineExtend(buf: seq<Byte>, from: nat, to: nat)
    requires to < |buf| && NoNewline(buf, from, to) && buf[to] != NEWLINE
    ensures NoNewline(buf, from, to + 1)
  {
  }

  /** Scans the line that starts at `start`, `k` of whose bytes are already
      known to be neither newlines nor past the wrap width. `None` means the
      buffer ends before the line does. */
  function ScanLine(buf: seq<Byte>, w: nat, start: nat, k: nat): (r: Option<Line>)
    requires k <= w
    ensures r.Some? ==> k <= r.value.len <= w && start + r.value.len < |buf|
    ensures r.Some? ==> r.value.len == w || buf[start + r.value.len] == NEWLINE
    ensures r.Some? ==> r.value.next == start + r.value.len + (if buf[start + r.value.len] == NEWLINE then 1 else 0)
    ensures r.None? ==> |buf| <= start + w
    decreases w - k
  {
    if start + k >= |buf| then None
    else if buf[start + k] == NEWLINE then Some(Line(k, start + k + 1))
    else if k == w then Some(Line(k, start + k))
    else ScanLine(buf, w, start, k + 1)
  }

  /** A line the scan finds holds no newline. */
  lemma {:induction false} ScanLineNoNewline(buf: seq<Byte>, w: nat, start: nat, k: nat)
    requires k <= w && ScanLine(buf, w, start, k).Some?
    ensures NoNewline(buf, start + k, start + ScanLine(buf, w, start, k).value.len)
    decreases w - k
  {
    if buf[start + k] != NEWLINE && k < w {
      ScanLineNoNewline(buf, w, start, k + 1);
    }
  }

  /** Where line `n` starts, if every line before it ends inside the buffer.
      With a positive wrap width every line start is at least its own number,
      so only finitely many lines exist. */
  function LineStart(buf: seq<Byte>, w: nat, n: nat): (r: Option<nat>)
    ensures r.Some? ==> r.value <= |buf|
    ensures w > 0 && r.Some? ==> n <= r.value
    ensures n == 0 ==> r == Some(0)
  {
    if n == 0 then Some(0)
    else
      match LineStart(buf, w, n - 1)
      case None => None
      case Some(s) =>
        match ScanLine(buf, w, s, 0)
        case None => None
        case Some(l) => Some(l.next)
  }

  /** What `read_line(n)` returns: line `n` padded with spaces to the window
      width, present exactly when line `n` ends before the end of the buffer,
      that is, when line `n + 1` has a start. */
  function ReadLineOf(buf: seq<Byte>, n: nat): (r: Option<seq<Byte>>)
    ensures r.Some? <==> LineStart(buf, WINDOW_WIDTH, n + 1).Some?
    ensures r.Some? ==> |r.value| == WINDOW_WIDTH
    ensures r.Some? ==> forall i :: 0 <= i < |r.value| ==> r.value[i] != NEWLINE
  {
    match LineStart(buf, WINDOW_WIDTH, n)
    case None => None
    case Some(s) =>
      match ScanLine(buf, WINDOW_WIDTH, s, 0)
      case None => None
      case Some(l) =>
        ScanLineNoNewline(buf, WINDOW_WIDTH, s, 0);
        Some(buf[s..s + l.len] + Fill(SPACE, WINDOW_WIDTH - l.len))
  }

  /** The rest of `line_count`'s scan from byte `pos`, `col` bytes into the
      current line, as written: a newline skips the byte after it, and the
      byte at which a line wraps is consumed without joining the new line.
      Each line counted consumes at least one byte. */
  function CountFrom(buf: seq<Byte>, w: nat, pos: nat, col: nat): (r: nat)
    ensures pos <= |buf| ==> r <= |buf| - pos
    ensures pos >= |buf| || buf[pos] == 0 ==> r == 0
    decreases |buf| + 1 - pos
  {
    if pos >= |buf| || buf[pos] == 0 then 0
    else if buf[pos] == NEWLINE then 1 + CountFrom(buf, w, pos + 2, 0)
    else if col == w then 1 + CountFrom(buf, w, pos + 1, 0)
    else CountFrom(buf, w, pos + 1, col + 1)
  }

  /** What `line_count(w)` returns: at least one line, exactly one for an
      empty text, and never more lines than bytes plus one. */
  function LineCountOf(buf: seq<Byte>, w: nat): (c: nat)
    ensures 1 <= c <= |buf| + 1
    ensures |buf| == 0 || buf[0] == 0 ==> c == 1
  {
    1 + CountFrom(buf, w, 0, 0)
  }

  /** `line_count`'s scan with the two corrections: a newline steps over
      itself only, and the byte at which a line wraps opens the next line. */
  function FixedCountFrom(buf: seq<Byte>, w: nat, pos: nat, col: nat): (r: nat)
    requires w > 0
    ensures pos >= |buf| || buf[pos] == 0 ==> r == 0
    decreases |buf| - pos, if col == w then 1 else 0
  {
    if pos >= |buf| || buf[pos] == 0 then 0
    else if buf[pos] == NEWLINE then 1 + FixedCountFrom(buf, w, pos + 1, 0)
    else if col == w then 1 + FixedCountFrom(buf, w, pos, 0)
    else FixedCountFrom(buf, w, pos + 1, col + 1)
  }

  function FixedLineCountOf(buf: seq<Byte>, w: nat): (c: nat)
    requires w > 0
    ensures c >= 1
    ensures |buf| == 0 || buf[0] == 0 ==> c == 1
  {
    1 + FixedCountFrom(buf, w, 0, 0)
  }

  /** No terminator byte anywhere in the buffer. */
  predicate ZeroFree(buf: seq<Byte>)
  {
    forall i :: 0 <= i < |buf| ==> buf[i] != 0
  }

  /** A line that has no start leaves every later line without one. */
  lemma {:induction false} LineStartMonotone(buf: seq<Byte>, w: nat, m: nat, n: nat)
    requires m <= n && LineStart(buf, w, n).Some?
    ensures LineStart(buf, w, m).Some?
    decreases n - m
  {
    if m < n {
      LineStartMonotone(buf, w, m, n - 1);
    }
  }

  /** If `read_line(n)` finds a line, so does `read_line(m)` for every
      earlier `m`. */
  lemma ReadLineMonotone(buf: seq<Byte>, m: nat, n: nat)
    requires m <= n && ReadLineOf(buf, n).Some?
    ensures ReadLineOf(buf, m).Some?
  {
    LineStartMonotone(buf, WINDOW_WIDTH, m + 1, n + 1);
  }

  /** `read_line` finds fewer lines than the buffer has bytes. */
  lemma ReadLineBounded(buf: seq<Byte>, n: nat)
    requires ReadLineOf(buf, n).Some?
    ensures n < |buf|
  {
    assert LineStart(buf, WINDOW_WIDTH, n + 1).Some?;
  }

  /** A line `read_line` returns holds exactly the bytes from its own start
      up to the next line's start, less the newline that ends it, followed by
      spaces. */
  lemma ReadLineContents(buf: seq<Byte>, n: nat)
    requires ReadLineOf(buf, n).Some?
    ensures LineStart(buf, WINDOW_WIDTH, n).Some?
    ensures var s := LineStart(buf, WINDOW_WIDTH, n).value;
            var t := LineStart(buf, WINDOW_WIDTH, n + 1).value;
            var e := if buf[t - 1] == NEWLINE then t - 1 else t;
            s < t && s <= e && e - s <= WINDOW_WIDTH &&
            ReadLineOf(buf, n).value == buf[s..e] + Fill(SPACE, WINDOW_WIDTH - (e - s))
  {
    LineStartMonotone(buf, WINDOW_WIDTH, n, n + 1);
    var s := LineStart(buf, WINDOW_WIDTH, n).value;
    var l := ScanLine(buf, WINDOW_WIDTH, s, 0).value;
    assert LineStart(buf, WINDOW_WIDTH, n + 1).value == l.next;
    if buf[s + l.len] != NEWLINE {
      ScanLineNoNewline(buf, WINDOW_WIDTH, s, 0);
      assert buf[l.next - 1] == buf[s + WINDOW_WIDTH - 1];
    }
  }

  /** On a buffer without terminator bytes, the corrected count from `pos`
      is the count of the lines the scan of `read_line` finds from there. */
  lemma {:induction false} FixedCountFollowsScan(buf: seq<Byte>, w: nat, start: nat, k: nat)
    requires w > 0 && k <= w && ZeroFree(buf)
    ensures FixedCountFrom(buf, w, start + k, k) ==
              match ScanLine(buf, w, start, k)
              case None => 0
              case Some(l) => 1 + FixedCountFrom(buf, w, l.next, 0)
    decreases w - k
  {
    if start + k < |buf| && buf[start + k] != NEWLINE && k < w {
      FixedCountFollowsScan(buf, w, start, k + 1);
    }
  }

  /** The start of line `j + 1` is where the scan of line `j` says it is. */
  lemma LineStartStep(buf: seq<Byte>, w: nat, j: nat, s: nat)
    requires LineStart(buf, w, j) == Some(s)
    ensures ScanLine(buf, w, s, 0).None? ==> LineStart(buf, w, j + 1).None?
    ensures ScanLine(buf, w, s, 0).Some? ==>
              LineStart(buf, w, j + 1) == Some(ScanLine(buf, w, s, 0).value.next)
  {
  }

  /** Bytes already scanned without meeting a newline do not change where
      the scan ends. */
  lemma {:induction false} ScanSkipsPrefix(buf: seq<Byte>, w: nat, s: nat, k: nat)
    requires k <= w && s + k <= |buf| && NoNewline(buf, s, s + k)
    ensures ScanLine(buf, w, s, k) == ScanLine(buf, w, s, 0)
  {
    if k > 0 {
      ScanSkipsPrefix(buf, w, s, k - 1);
    }
  }

  /** Line `n`, found to start at `s` and to end inside the buffer, is what
      `read_line(n)` returns, padded. */
  lemma LineIsRead(buf: seq<Byte>, n: nat, s: nat)
    requires LineStart(buf, WINDOW_WIDTH, n) == Some(s) && ScanLine(buf, WINDOW_WIDTH, s, 0).Some?
    ensures var l := ScanLine(buf, WINDOW_WIDTH, s, 0).value;
            ReadLineOf(buf, n) == Some(buf[s..s + l.len] + Fill(SPACE, WINDOW_WIDTH - l.len))
  {
  }

  /** Line `j`, starting at `s`, ends at the newline `k` bytes in: the
      next line starts just past the newline. */
  lemma NewlineEndsLine(buf: seq<Byte>, w: nat, j: nat, s: nat, k: nat)
    requires k <= w && LineStart(buf, w, j) == Some(s)
    requires s + k < |buf| && NoNewline(buf, s, s + k) && buf[s + k] == NEWLINE
    ensures ScanLine(buf, w, s, 0) == Some(Line(k, s + k + 1))
    ensures LineStart(buf, w, j + 1) == Some(s + k + 1)
  {
    ScanSkipsPrefix(buf, w, s, k);
    LineStartStep(buf, w, j, s);
  }

  /** Line `j`, starting at `s`, wraps after `w` bytes: the next line starts
      at the byte that did not fit. */
  lemma WrapEndsLine(buf: seq<Byte>, w: nat, j: nat, s: nat)
    requires LineStart(buf, w, j) == Some(s)
    requires s + w < |buf| && NoNewline(buf, s, s + w) && buf[s + w] != NEWLINE
    ensures ScanLine(buf, w, s, 0) == Some(Line(w, s + w))
    ensures LineStart(buf, w, j + 1) == Some(s + w)
  {
    ScanSkipsPrefix(buf, w, s, w);
    LineStartStep(buf, w, j, s);
  }

  /** Line `j`, starting at `s`, runs into the end of the buffer: no later
      line has a start. */
  lemma EndOfBufferEndsLines(buf: seq<Byte>, w: nat, j: nat, s: nat, k: nat, n: nat)
    requires k <= w && LineStart(buf, w, j) == Some(s)
    requires s + k == |buf| && NoNewline(buf, s, s + k) && j < n
    ensures ScanLine(buf, w, s, 0).None?
    ensures LineStart(buf, w, n).None?
  {
    ScanSkipsPrefix(buf, w, s, k);
    LineStartStep(buf, w, j, s);
    if LineStart(buf, w, n).Some? {
      LineStartMonotone(buf, w, j + 1, n);
    }
  }

  /** What `read_line(n)` knows part way through its scan: it is on line
      `cur`, which starts at `start` and has `len` newline-free bytes so far;
      `lb`, the line returned, is still blank before line `n`, holds the
      scanned bytes of line `n` while on it, and is the answer after it. */
  ghost predicate Reading(buf: seq<Byte>, n: nat, cur: nat, start: nat, len: nat, lb: seq<Byte>)
  {
    && cur <= n + 1 && len <= WINDOW_WIDTH && start + len <= |buf| && |lb| == WINDOW_WIDTH
    && (cur <= n ==> LineStart(buf, WINDOW_WIDTH, cur) == Some(start))
    && NoNewline(buf, start, start + len)
    && (cur < n ==> forall i :: 0 <= i < WINDOW_WIDTH ==> lb[i] == SPACE)
    && (cur == n ==> forall i :: 0 <= i < WINDOW_WIDTH ==> lb[i] == if i < len then buf[start + i] else SPACE)
    && (cur == n + 1 ==> ReadLineOf(buf, n) == Some(lb))
  }

  /** The scan starts on line 0, at byte 0, with a blank line. */
  lemma ReadingStarts(buf: seq<Byte>, n: nat)
    ensures Reading(buf, n, 0, 0, 0, Fill(SPACE, WINDOW_WIDTH))
  {
  }

  /** A byte that is neither a newline nor past the wrap width joins the
      current line, and is copied when that line is line `n`. */
  lemma ReadingByte(buf: seq<Byte>, n: nat, cur: nat, start: nat, len: nat, lb: seq<Byte>)
    requires Reading(buf, n, cur, start, len, lb) && cur <= n
    requires start + len < |buf| && buf[start + len] != NEWLINE && len < WINDOW_WIDTH
    ensures Reading(buf, n, cur, start, len + 1, if cur == n then lb[len := buf[start + len]] else lb)
  {
    NoNewlineExtend(buf, start, start + len);
  }

  /** A newline ends the current line; when that was line `n`, the scan has
      its answer. */
  lemma ReadingNewline(buf: seq<Byte>, n: nat, cur: nat, start: nat, len: nat, lb: seq<Byte>)
    requires Reading(buf, n, cur, start, len, lb) && cur <= n
    requires start + len < |buf| && buf[start + len] == NEWLINE
    ensures Reading(buf, n, cur + 1, start + len + 1, 0, lb)
  {
    NewlineEndsLine(buf, WINDOW_WIDTH, cur, start, len);
    if cur == n {
      LineIsRead(buf, n, start);
      assert lb == buf[start..start + len] + Fill(SPACE, WINDOW_WIDTH - len);
    }
  }

  /** A byte past the wrap width ends the current line without joining it;
      when that was line `n`, the scan has its answer. */
  lemma ReadingWrap(buf: seq<Byte>, n: nat, cur: nat, start: nat, len: nat, lb: seq<Byte>)
    requires Reading(buf, n, cur, start, len, lb) && cur <= n
    requires start + len < |buf| && buf[start + len] != NEWLINE && len == WINDOW_WIDTH
    ensures Reading(buf, n, cur + 1, start + len, 0, lb)
  {
    WrapEndsLine(buf, WINDOW_WIDTH, cur, start);
    if cur == n {
      LineIsRead(buf, n, start);
      assert lb == buf[start..start + len] + Fill(SPACE, WINDOW_WIDTH - len);
    }
  }

  /** Running into the end of the buffer before line `n` has ended means
      there is no line `n` to return. */
  lemma ReadingRunsOut(buf: seq<Byte>, n: nat, cur: nat, start: nat, len: nat, lb: seq<Byte>)
    requires Reading(buf, n, cur, start, len, lb) && cur <= n && start + len == |buf|
    ensures ReadLineOf(buf, n).None?
  {
    EndOfBufferEndsLines(buf, WINDOW_WIDTH, cur, start, len, n + 1);
  }

  /** Counting lines from the start `s` of line `j`: line `j + t + 1` has a
      start exactly when `t` is below the corrected count from `s`. */
  lemma {:induction false} FixedCountCountsLineStarts(buf: seq<Byte>, w: nat, j: nat, s: nat, t: nat)
    requires w > 0 && ZeroFree(buf) && LineStart(buf, w, j) == Some(s)
    ensures LineStart(buf, w, j + t + 1).Some? <==> t < FixedCountFrom(buf, w, s, 0)
    decreases t
  {
    FixedCountFollowsScan(buf, w, s, 0);
    LineStartStep(buf, w, j, s);
    var scan := ScanLine(buf, w, s, 0);
    if scan.None? {
      if LineStart(buf, w, j + t + 1).Some? {
        LineStartMonotone(buf, w, j + 1, j + t + 1);
      }
    } else if t > 0 {
      FixedCountCountsLineStarts(buf, w, j + 1, scan.value.next, t - 1);
    }
  }

  /** The corrected count agrees with `read_line`: on a buffer without
      terminator bytes, `read_line(n)` finds line `n` exactly when line `n`
      is not the last of `FixedLineCountOf` lines. */
  lemma FixedLineCountMatchesReadLine(buf: seq<Byte>, n: nat)
    requires ZeroFree(buf)
    ensures ReadLineOf(buf, n).Some? <==> n + 1 < FixedLineCountOf(buf, WINDOW_WIDTH)
  {
    FixedCountCountsLineStarts(buf, WINDOW_WIDTH, 0, 0, n);
  }

  /** The corrected count stops at the first 0 byte: what follows it does
      not matter. */
  lemma {:induction false} FixedCountIgnoresTail(buf: seq<Byte>, w: nat, z: nat, pos: nat, col: nat)
    requires w > 0 && z < |buf| && buf[z] == 0 && pos <= z
    ensures FixedCountFrom(buf, w, pos, col) == FixedCountFrom(buf[..z], w, pos, col)
    decreases z - pos, if col == w then 1 else 0
  {
    if pos == z {
    } else if buf[pos] == 0 {
    } else if buf[pos] == NEWLINE {
      FixedCountIgnoresTail(buf, w, z, pos + 1, 0);
    } else if col == w {
      FixedCountIgnoresTail(buf, w, z, pos, 0);
    } else {
      FixedCountIgnoresTail(buf, w, z, pos + 1, col + 1);
    }
  }

  /** On the buffers the editor holds, text followed by a 0 terminator, the
      corrected count counts the lines of the text before the first 0, split
      the way `read_line` splits them: line `n` of that text ends before the
      terminator exactly when it is not the last of the counted lines. */
  lemma FixedLineCountMatchesTextLines(buf: seq<Byte>, z: nat, n: nat)
    requires z < |buf| && buf[z] == 0 && ZeroFree(buf[..z])
    ensures ReadLineOf(buf[..z], n).Some? <==> n + 1 < FixedLineCountOf(buf, WINDOW_WIDTH)
  {
    FixedCountIgnoresTail(buf, WINDOW_WIDTH, z, 0, 0);
    FixedLineCountMatchesReadLine(buf[..z], n);
  }

  /** `line_count` as written does not: on "a\n\nb" it counts two lines,
      while `read_line(1)` finds the empty second line and the text has a
      third. */
  lemma LineCountSkipsLineAfterNewline()
    ensures var buf: seq<Byte> := [97, NEWLINE, NEWLINE, 98];
            LineCountOf(buf, WINDOW_WIDTH) == 2 &&
            ReadLineOf(buf, 1).Some? &&
            FixedLineCountOf(buf, WINDOW_WIDTH) == 3
  {
    var buf: seq<Byte> := [97, NEWLINE, NEWLINE, 98];
    assert CountFrom(buf, WINDOW_WIDTH, 4, 1) == 0;
    assert CountFrom(buf, WINDOW_WIDTH, 3, 0) == 0;
    assert CountFrom(buf, WINDOW_WIDTH, 1, 1) == 1;
    assert CountFrom(buf, WINDOW_WIDTH, 0, 0) == 1;
    assert FixedCountFrom(buf, WINDOW_WIDTH, 4, 1) == 0;
    assert FixedCountFrom(buf, WINDOW_WIDTH, 3, 0) == 0;
    assert FixedCountFrom(buf, WINDOW_WIDTH, 2, 0) == 1;
    assert FixedCountFrom(buf, WINDOW_WIDTH, 1, 1) == 2;
    assert FixedCountFrom(buf, WINDOW_WIDTH, 0, 0) == 2;
    assert ScanLine(buf, WINDOW_WIDTH, 0, 1) == Some(Line(1, 2));
    assert ScanLine(buf, WINDOW_WIDTH, 0, 0) == Some(Line(1, 2));
    assert LineStart(buf, WINDOW_WIDTH, 1) == Some(2);
    assert ScanLine(buf, WINDOW_WIDTH, 2, 0) == Some(Line(0, 3));
    assert LineStart(buf, WINDOW_WIDTH, 2) == Some(3);
  }

  /** Ten bytes without newlines at wrap width three make lines of 3, 3, 3
      and 1 bytes; `line_count` as written reports three lines. */
  lemma LineCountLosesWrappedByte()
    ensures var buf: seq<Byte> := [97, 98, 99, 100, 101, 102, 103, 104, 105, 106];
            LineCountOf(buf, 3) == 3 && FixedLineCountOf(buf, 3) == 4
  {
    var buf: seq<Byte> := [97, 98, 99, 100, 101, 102, 103, 104, 105, 106];
    assert CountFrom(buf, 3, 10, 2) == 0;
    assert CountFrom(buf, 3, 8, 0) == 0;
    assert CountFrom(buf, 3, 5, 1) == 1;
    assert CountFrom(buf, 3, 4, 0) == 1;
    assert CountFrom(buf, 3, 1, 1) == 2;
    assert CountFrom(buf, 3, 0, 0) == 2;
    assert FixedCountFrom(buf, 3, 10, 1) == 0;
    assert FixedCountFrom(buf, 3, 9, 0) == 0;
    assert FixedCountFrom(buf, 3, 7, 1) == 1;
    assert FixedCountFrom(buf, 3, 6, 0) == 1;
    assert FixedCountFrom(buf, 3, 4, 1) == 2;
    assert FixedCountFrom(buf, 3, 3, 0) == 2;
    assert FixedCountFrom(buf, 3, 1, 1) == 3;
    assert FixedCountFrom(buf, 3, 0, 0) == 3;
  }
}
