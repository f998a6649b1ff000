# russet window shell, modelled in Dafny

This project models the window shell of the russet teaching kernel
(`src/lib.rs`). The screen shows a filename bar on top and four windows,
F1 to F4, tiled two by two. Each window either lists the directory of a small
file system with a cursor on one file, or edits one file in a fixed-capacity
byte buffer. Keys are routed by focus:

- F1–F4 select a window and F5 selects the filename bar.
- F6 saves the selected window's editor and returns it to the directory.
- The arrows move the selected window's directory cursor.
- 'e' opens the file under that cursor.
- In the filename bar, printable characters, backspace and Enter edit a
  ten-byte name, and Enter creates that file.

Modules, one per concern of the source:

- `Common` (`common.dfy`): bytes, the storage constants, `c as u8`.
- `Layout` (`layout.dfy`): the screen geometry and `KWindows` with its column,
  row and label.
- `Lines` (`lines.dfy`): the reference definitions of what the editor's two
  scanning loops compute, `line_count` and `read_line`, and the lemmas about
  them.
- `Modes` (`modes.dfy`):
  - `DirectoryState`, `KWindowMode`, `KWindowMode::editing`;
  - `EditingState` as a class over an `array<Byte>`, with `write`,
    `backspace` and `type_char` done in place;
  - `line_count` and `read_line` as loops proved against the `Lines`
    functions.
- `Typing` (`filebar.dfy`): the filename bar's `TypingBuffer` as a class over
  a ten-byte array.
- `FileStore` (`store.dfy`): the file system the kernel uses, as an abstract
  store. It has an ordered directory of distinct, zero-padded ten-byte names
  with their contents, and supports listing, create-or-truncate, bounded
  read and overwrite.
- `KernelState` (`kernel.dfy`): the `Kernel` class. Its fields are the
  selection, the filename bar, the array of four window modes and the store.
  The module also has the pure functions that say what each mode transition
  produces.

`Kernel.Valid` is the invariant every key handler keeps:

- every directory cursor is on a listed file;
- every editor's name is the listed name at its remembered index;
- every editor's name is valid UTF-8;
- every editor's length fits the buffer.

From it the model proves, rather than assumes, several source checks cannot
fail:

- the `assert!` in `switch_to_edit_mode`;
- the `unwrap` on the saved file's name in `switch_to_directory_mode`;
- the slice `buffer[0..len]`: it is in range, and the bytes it holds fit
  in one file, which is what the `write` that follows needs. That the
  `write` then succeeds is an assumption about the file system, listed
  under "Left out".

Only these unwraps become preconditions:

- `str::from_utf8` of the listed name when a file is opened;
- `open_create` when Enter creates a file.

The unwraps on `list_directory`, `open_read`, `read` and `write` are neither
preconditions nor proved. They are assumptions about the file system,
listed under "Left out".

The model follows what the code does, including where an editor might be
expected to behave otherwise:

- An opened file's editor starts with its cursor at the front, not at the end
  of the text (`src/lib.rs:223`).
- Characters typed while a window is selected are never routed to its editor.
  Only 'e' reaches a window (`src/lib.rs:408-413`).
- `line_count` counts differently from `read_line` (see Findings).
  `EditingState.LineCount` keeps the count as written, because the kernel's
  drawing code uses it that way. The corrected count `FixedLineCountOf`
  is proved to count the lines of the text before the first 0 byte, split
  the way `read_line` splits them.

## Model

| member | source | states |
|---|---|---|
| Common.CharToByte | src/lib.rs:133-139 | `c as u8` keeps the byte of a scalar below 256 and agrees with the scalar modulo 256 otherwise |
| Layout.KWindows.Col | src/lib.rs:65-72 | a window, borders included, lies inside the windows area; the right-hand windows start one column past a window's width |
| Layout.KWindows.Row | src/lib.rs:73-80 | a window lies between the filename bar and the last row; the upper windows' bottom border is the lower windows' top border |
| Layout.KWindows.Name | src/lib.rs:81-88 | the label is "F" followed by the window's number and fits on its top border |
| Layout.OriginsAndNamesDistinct | src/lib.rs:64-88 | no two windows share an origin or a label |
| Modes.DirectoryState.MoveCursor | src/lib.rs:97-102 | the cursor moves by `delta` exactly when the result is in `[0, file_count)`; otherwise it is unchanged; so a cursor on the listing stays on it |
| Modes.EditingMode | src/lib.rs:213-226 | a new editor has its cursor at 0 and `len` as given, and is well formed when name and buffer have their fixed sizes |
| Modes.EditingState.Write | src/lib.rs:115-123 | exactly `min(|data|, capacity - cursor)` bytes land at the cursor, no other byte changes, and cursor and length advance together |
| Modes.EditingState.Backspace | src/lib.rs:125-131 | no-op at cursor 0; otherwise cursor and length step back together and the vacated byte becomes 0; `len - cursor` is kept |
| Modes.EditingState.TypeChar | src/lib.rs:133-139 | no-op at capacity; otherwise only `buffer[cursor]` changes, to `c as u8`, and cursor and length advance; `len - cursor` is kept |
| Modes.EditingState.LineCount | src/lib.rs:141-165 | the loop terminates and returns `LineCountOf` of the buffer |
| Lines.CountFrom | src/lib.rs:145-164 | the rest of the scan counts at most one line per remaining byte, and none at the end of the array or at a 0 byte |
| Lines.LineCountOf | src/lib.rs:141-165 | the count is at least 1, exactly 1 for a buffer starting with 0, and at most the buffer length plus 1 |
| Modes.EditingState.ReadLine | src/lib.rs:167-199 | the loop terminates and returns `ReadLineOf` of the buffer |
| Lines.ScanLine | src/lib.rs:174-191 | a line ends at a newline or after `w` bytes; the next line starts past the newline, or at the byte that did not fit; no line exists if the array ends first |
| Lines.ScanLineNoNewline | src/lib.rs:178-190 | a scanned line holds no newline |
| Lines.LineStart | src/lib.rs:169-192 | line starts lie inside the buffer, line 0 starts at 0, and line `n` starts at or after byte `n` |
| Lines.ReadLineOf | src/lib.rs:167-199 | the result is present exactly when line `n + 1` has a start, is `WINDOW_WIDTH` bytes wide and holds no newline |
| Lines.ReadLineMonotone | src/lib.rs:172-198 | if line `n` is read then every earlier line is |
| Lines.ReadLineBounded | src/lib.rs:172-198 | a line numbered at or past the buffer length is never read |
| Lines.ReadLineContents | src/lib.rs:167-199 | a line read holds exactly the bytes from its start to the next line's start, minus a closing newline, then spaces |
| Lines.ReadingByte | src/lib.rs:186-191 | a plain byte joins the current line, and it is copied only on the requested line |
| Lines.ReadingNewline | src/lib.rs:178-181 | a newline ends the current line; on the requested line the answer is then complete |
| Lines.ReadingWrap | src/lib.rs:182-185 | a full line ends without taking the next byte; on the requested line the answer is then complete |
| Lines.ReadingRunsOut | src/lib.rs:173-176 | reaching the end of the array before the requested line ends means no line |
| Lines.LineCountSkipsLineAfterNewline | src/lib.rs:152-155 | as written, "a\n\nb" counts 2 lines though `read_line` finds a second line, and the corrected count is 3 |
| Lines.LineCountLosesWrappedByte | src/lib.rs:155-158 | as written, ten newline-free bytes at width 3 count 3 lines, the corrected count is 4 |
| Lines.FixedLineCountMatchesReadLine | src/lib.rs:141-165 | corrected count: on a buffer without 0 bytes, `read_line(n)` finds a line exactly when `n + 1` is below the corrected count |
| Lines.FixedCountIgnoresTail | src/lib.rs:146-149 | the corrected count stops at the first 0 byte: the bytes after it do not change the count |
| Lines.FixedLineCountMatchesTextLines | src/lib.rs:141-199 | corrected count: on text ending at a 0 byte, `read_line` run on the text finds line `n` exactly when `n + 1` is below the corrected count of the whole buffer |
| Typing.TypingBuffer.constructor | src/lib.rs:357-360 | a new bar is empty over an all-zero buffer |
| Typing.TypingBuffer.Text | src/lib.rs:232-235 | the name is the bytes before the cursor, and the buffer is the name followed by zeros |
| Typing.TypingBuffer.TypeChar | src/lib.rs:238-243 | no-op at ten bytes; otherwise the name grows by `c as u8`; the zero tail is kept |
| Typing.TypingBuffer.Backspace | src/lib.rs:245-250 | no-op on an empty name; otherwise the last byte is zeroed and dropped; the zero tail is kept |
| Typing.TypingBuffer.Clear | src/lib.rs:252-255 | the bar is empty and every byte is 0 |
| Typing.TypingBuffer.GetBytes | src/lib.rs:264-266 | returns the cursor and the buffer, whose first `cursor` bytes are the name and the rest 0, and changes nothing |
| FileStore.Padded | src/lib.rs:559-563 | a name as listed: its bytes, then zeros to the fixed width |
| FileStore.FindFrom | src/lib.rs:575-578 | the first position at or after `from` that lists the name, or none if none does |
| FileStore.Find | src/lib.rs:575-578 | `open_create` and `open_read` find a file by name: present exactly when listed |
| FileStore.FindListed | src/lib.rs:558-564 | in a valid store a listed name is found at its own position |
| FileStore.Create | src/lib.rs:520-527 | `open_create` truncates a listed file or lists a new empty one last; existing positions and other files are unchanged |
| FileStore.ReadFile | src/lib.rs:564-566 | `read` returns the file's first `min(size, capacity)` bytes |
| FileStore.Overwrite | src/lib.rs:577-580 | `write` after `open_create` makes the file hold exactly the data and changes nothing else |
| KernelState.MovedMode | src/lib.rs:548-556 | an arrow moves a directory cursor within the listing, or leaves it; an editor is untouched |
| KernelState.MovedModeStaysValid | src/lib.rs:548-556 | moving a cursor keeps the slot valid |
| KernelState.EditedMode | src/lib.rs:558-573 | the editor opened on file `k` has that file's name, its bytes that fit followed by zeros, the length read, cursor 0 and index `k` |
| KernelState.SavedStore | src/lib.rs:575-586 | saving makes the editor's file hold exactly `buffer[0..len]`; no other file and no name changes |
| KernelState.EditThenSave | src/lib.rs:558-586 | 'e' then F6 returns the window to the directory at index `k`, and a file that fits the buffer comes back unchanged (a longer one keeps the bytes that fit) |
| KernelState.CreateKeepsSlots | src/lib.rs:520-527 | creating a file keeps every window slot valid |
| KernelState.WindowOf | src/lib.rs:380-383 | F`n` selects the window in slot `n - 1` |
| KernelState.ArrowDelta | src/lib.rs:390-393 | up and down move by 3, left and right by 1 |
| KernelState.Kernel.constructor | src/lib.rs:346-368 | F1 is selected, every window lists the directory from file 0, and the bar is empty |
| KernelState.Kernel.GetWindowMode | src/lib.rs:529-536 | returns the window's own slot, which is a valid slot |
| KernelState.Kernel.SetWindowMode | src/lib.rs:538-546 | only the window's own slot changes |
| KernelState.Kernel.MoveCursor | src/lib.rs:548-556 | only the selected window's slot changes, by `MovedMode`; nothing changes when the bar is selected |
| KernelState.Kernel.SwitchToEditMode | src/lib.rs:558-573 | a directory window becomes `EditedMode` of its cursor's file; an editing window is left alone; the store is unchanged |
| KernelState.Kernel.SwitchToDirectoryMode | src/lib.rs:575-586 | an editing window saves (`SavedStore`) and returns to `Directory(directory_index)`; a directory window is left alone |
| KernelState.Kernel.TryCreateFile | src/lib.rs:520-527 | the bar always ends empty and zeroed; the store gains or truncates the typed file only when the name is text |
| KernelState.Kernel.HandleRaw | src/lib.rs:378-396 | F1–F5 change only the selection; F6 and arrows act only on the selected window's slot; other keys change nothing |
| KernelState.Kernel.HandleUnicode | src/lib.rs:398-415 | in the bar: backspace, Enter and drawable characters edit the name (Enter creates); in a window only 'e' acts, opening its file; the selection never changes |

## Left out

- Rendering is not modelled; it only plots characters on the VGA text
  buffer. This covers `Kernel::draw`, `draw_window`, `draw_window_border`,
  `clear_window`, `TypingBuffer::draw`, `text_color` and `highlight_color`.
- `Kernel::key` is not modelled beyond its parts. It dispatches to
  `handle_raw` and `handle_unicode`, which are modelled, and then redraws.
- `src/main.rs` is not part of this model. That file holds the boot code,
  the interrupt wiring and the single-slot handoff between the keyboard
  interrupt and the CPU loop.
- The file system crate and the RAM disk are foreign code.
  - `FileStore` keeps only what the kernel relies on: ordered distinct
    names, create-or-truncate, a read of at most the buffer's size, and
    overwrite.
  - Open handles and `close` carry no state in the model.
  - The model assumes these things of the file system, none of them checked:
    - `read` copies `min(size, capacity)` bytes and does not fail
      (`src/lib.rs:566`);
    - `open_create` succeeds exactly when the name is listed or the
      directory has room;
    - `write` succeeds whenever the data fits in one file
      (`src/lib.rs:579`);
    - `list_directory` does not fail (`src/lib.rs:551`, `src/lib.rs:561`);
    - `open_read` of a listed name does not fail and opens the file at that
      position, so `SwitchToEditMode` reads file `k` by index
      (`src/lib.rs:564`);
    - a new name is listed after the existing ones, and names are never
      removed or reordered. Directory cursors stay on their files because
      of this.
- `initial_files` and its embedded program texts are not modelled. The
  `Kernel` constructor takes the seeded store as a parameter and needs at
  least one file, since `initial_files` seeds six.
- `str::from_utf8` and `is_drawable` are foreign. They are the kernel's
  `isText` and `isDrawable` function parameters.
- `draw_proc_status` and `run_one_instruction` are empty stubs. The
  interpreter constants are unused. None of them is modelled.
- The screen is assumed to be the 80x25 text mode. The display driver that
  defines `BUFFER_WIDTH` and `BUFFER_HEIGHT` is not part of this model.
- Modes.DirectoryState.MoveCursor: does not model the `isize` conversion of
  the cursor. Cursors stay below the thirty-file limit, so it cannot wrap.
- Modes.EditingState: `len` has no upper bound in the class, as in the code.
  `Write` and `TypeChar` grow it even when the cursor starts behind it. In
  the kernel, editors are never typed into, so `len` stays at the size
  read.
- The `close(...).unwrap()` calls are not modelled: `close` carries no
  state in the model.

## Findings

| source | as written | input that shows it | evidently intended | confidence | as-written member | corrected member |
|---|---|---|---|---|---|---|
| src/lib.rs:152-159 | `line_count` steps two bytes past a newline, so the byte after it is never examined. At a wrap it consumes the byte that did not fit without counting it into the new line. | "a\n\nb" gives 2, yet `read_line` returns lines 0 and 1 and a third line "b" follows (corrected count 3); "abcdefghij" at width 3 gives 3, yet the lines are "abc", "def", "ghi" and "j" (corrected count 4) | count the lines of the text before the first 0 byte, split the way `read_line` splits them: step one byte past a newline, and let the wrapped byte open the next line | not executed | Lines.LineCountSkipsLineAfterNewline | Lines.FixedLineCountMatchesTextLines |
