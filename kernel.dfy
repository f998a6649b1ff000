/** The kernel's key-dispatch state machine: which part of the screen has
    the focus, what each of the four windows shows, the filename bar, and
    the file store they all work on. */
module KernelState {
  import opened Common
  import opened Layout
  import opened Modes
  import opened Typing
  import opened FileStore

  /** Where typed keys go. */
  datatype KSelection = Window(w: KWindows) | Filebar

  /** The raw (non-character) keys: function keys by number, the arrows,
      and every other key, which the kernel ignores. */
  datatype KeyCode = Fn(n: nat) | ArrowUp | ArrowDown | ArrowLeft | ArrowRight | OtherKey

  /** What a window slot may hold given the store: a directory cursor on a
      listed file, or an editor over a listed file whose name is text and
      whose length fits the buffer. */
  predicate SlotValid(m: KWindowMode, fs: Store, isText: seq<Byte> -> bool)
  {
    match m
    case Directory(c) => c < |fs.names|
    case Editing(filename, _, len, _, k) =>
      && EditingWellFormed(m)
      && len <= PRACTICAL_FILE_BUFFER_SIZE
      && k < |fs.names|
      && filename == fs.names[k]
      && isText(filename)
  }

  /** A slot after `move_cursor(delta)` over a listing of `count` files: a
      directory cursor moves when it stays on a listed file, an editor is
      left alone. */
  function MovedMode(m: KWindowMode, delta: int, count: nat): (r: KWindowMode)
    ensures m.Editing? ==> r == m
    ensures m.Directory? ==> r.Directory?
    ensures m.Directory? && 0 <= m.cursor + delta < count ==> r.cursor == m.cursor + delta
    ensures m.Directory? && !(0 <= m.cursor + delta < count) ==> r == m
  {
    match m
    case Directory(c) => if 0 <= c + delta < count then Directory(c + delta) else m
    case Editing(_, _, _, _, _) => m
  }

  /** Moving a directory cursor never takes it off the listing. */
  lemma MovedModeStaysValid(m: KWindowMode, delta: int, fs: Store, isText: seq<Byte> -> bool)
    requires SlotValid(m, fs, isText)
    ensures SlotValid(MovedMode(m, delta, |fs.names|), fs, isText)
  {
  }

  /** The editor `switch_to_edit_mode` opens on file `k`: the name as
      listed, the bytes that fit in the buffer followed by zeros, the length
      read, the cursor at the front and `k` remembered for the way back. */
  function EditedMode(fs: Store, k: nat): (m: KWindowMode)
    requires StoreValid(fs) && k < |fs.names|
    ensures EditingWellFormed(m) && m.cursor == 0
    ensures m.filename == fs.names[k] && m.directoryIndex == k
    ensures m.len == |ReadFile(fs, k, PRACTICAL_FILE_BUFFER_SIZE)| <= PRACTICAL_FILE_BUFFER_SIZE
    ensures m.buffer[..m.len] == ReadFile(fs, k, PRACTICAL_FILE_BUFFER_SIZE)
    ensures forall i :: m.len <= i < |m.buffer| ==> m.buffer[i] == 0
  {
    var data := ReadFile(fs, k, PRACTICAL_FILE_BUFFER_SIZE);
    EditingMode(fs.names[k], data + Fill(0, PRACTICAL_FILE_BUFFER_SIZE - |data|), |data|, k)
  }

  /** The store after `switch_to_directory_mode` saves editor `m`: its file,
      found again by name, now holds exactly the edited bytes, and nothing
      else changes. */
  function SavedStore(fs: Store, m: KWindowMode): (r: Store)
    requires StoreValid(fs) && m.Editing? && EditingWellFormed(m)
    requires m.len <= PRACTICAL_FILE_BUFFER_SIZE && m.directoryIndex < |fs.names|
    requires m.filename == fs.names[m.directoryIndex]
    ensures StoreValid(r) && r.names == fs.names
    ensures r.contents[m.directoryIndex] == m.buffer[..m.len]
    ensures forall i :: 0 <= i < |fs.contents| && i != m.directoryIndex ==> r.contents[i] == fs.contents[i]
  {
    assert Padded(m.filename) == m.filename;
    FindListed(fs, m.directoryIndex);
    var created := Create(fs, m.filename);
    var k := Find(created, Padded(m.filename)).value;
    Overwrite(created, k, m.buffer[..m.len])
  }

  /** Opening file `k` with 'e' and leaving with F6 brings the window back
      to the directory with its cursor on `k`, and stores back what was
      read: a file that fits the buffer is left exactly as it was, a longer
      one keeps only the bytes that fit. */
  lemma EditThenSave(fs: Store, k: nat)
    requires StoreValid(fs) && k < |fs.names|
    ensures var m := EditedMode(fs, k);
            && m.directoryIndex == k
            && SavedStore(fs, m).names == fs.names
            && SavedStore(fs, m).contents == fs.contents[k := ReadFile(fs, k, PRACTICAL_FILE_BUFFER_SIZE)]
    ensures |fs.contents[k]| <= PRACTICAL_FILE_BUFFER_SIZE ==> SavedStore(fs, EditedMode(fs, k)) == fs
  {
    var m := EditedMode(fs, k);
    var r := SavedStore(fs, m);
    assert r.contents == fs.contents[k := ReadFile(fs, k, PRACTICAL_FILE_BUFFER_SIZE)];
    if |fs.contents[k]| <= PRACTICAL_FILE_BUFFER_SIZE {
      assert fs.contents[k := fs.contents[k]] == fs.contents;
    }
  }

  /** Creating a file keeps every slot valid: names are only ever added
      after the existing ones. */
  lemma CreateKeepsSlots(m: KWindowMode, fs: Store, name: seq<Byte>, isText: seq<Byte> -> bool)
    requires StoreValid(fs) && |name| <= MAX_FILENAME_BYTES && CanCreate(fs, name)
    requires SlotValid(m, fs, isText)
    ensures SlotValid(m, Create(fs, name), isText)
  {
    if m.Editing? {
      var r := Create(fs, name);
      assert r.names[m.directoryIndex] == r.names[..|fs.names|][m.directoryIndex];
    }
  }

  /** The window a function key from F1 to F4 selects. */
  function WindowOf(n: nat): (w: KWindows)
    requires 1 <= n <= NUM_WINDOWS
    ensures w.Index() == n - 1
  {
    if n == 1 then F1 else if n == 2 then F2 else if n == 3 then F3 else F4
  }

  /** How far an arrow key moves a directory cursor: a row of three names
      up or down, one name left or right. */
  function ArrowDelta(key: KeyCode): (d: int)
    requires key.ArrowUp? || key.ArrowDown? || key.ArrowLeft? || key.ArrowRight?
    ensures key.ArrowUp? || key.ArrowDown? ==> d == (if key.ArrowUp? then -3 else 3)
    ensures key.ArrowLeft? || key.ArrowRight? ==> d == (if key.ArrowLeft? then -1 else 1)
  {
    match key
    case ArrowUp => -3
    case ArrowDown => 3
    case ArrowLeft => -1
    case ArrowRight => 1
  }

  class Kernel {
    var selected: KSelection
    const filebar: TypingBuffer
    const windowModes: array<KWindowMode>
    var fs: Store
    /** Which characters the filename bar accepts (`is_drawable`). */
    const isDrawable: char -> bool
    /** Whether bytes are valid UTF-8 (`str::from_utf8` succeeds). */
    const isText: seq<Byte> -> bool

    ghost predicate Valid()
      reads this, filebar, filebar.buffer, windowModes
    {
      && windowModes.Length == NUM_WINDOWS
      && filebar.Valid()
      && StoreValid(fs)
      && forall i :: 0 <= i < windowModes.Length ==> SlotValid(windowModes[i], fs, isText)
    }

    /** A kernel over the seeded store: window F1 selected, every window
        listing the directory from its first file, and an empty filename
        bar. */
    constructor (seeded: Store, isDrawable: char -> bool, isText: seq<Byte> -> bool)
      requires StoreValid(seeded) && |seeded.names| > 0
      ensures Valid() && fresh(windowModes) && fresh(filebar) && fresh(filebar.buffer)
      ensures selected == Window(F1) && fs == seeded
      ensures windowModes[..] == [Directory(0), Directory(0), Directory(0), Directory(0)]
      ensures filebar.Text() == []
      ensures this.isDrawable == isDrawable && this.isText == isText
    {
      selected := Window(F1);
      filebar := new TypingBuffer();
      windowModes := new KWindowMode[NUM_WINDOWS](_ => Directory(0));
      fs := seeded;
      this.isDrawable := isDrawable;
      this.isText := isText;
    }

    /** The mode of window `w`, which is one a slot may hold. */
    function GetWindowMode(w: KWindows): (m: KWindowMode)
      reads this, filebar, filebar.buffer, windowModes
      requires windowModes.Length == NUM_WINDOWS
      ensures m == windowModes[w.Index()]
      ensures Valid() ==> SlotValid(m, fs, isText)
    {
      match w
      case F1 => windowModes[0]
      case F2 => windowModes[1]
      case F3 => windowModes[2]
      case F4 => windowModes[3]
    }

    /** Replaces window `w`'s mode; the other three windows keep theirs. */
    method SetWindowMode(w: KWindows, mode: KWindowMode)
      requires windowModes.Length == NUM_WINDOWS
      modifies windowModes
      ensures windowModes[..] == old(windowModes[..])[w.Index() := mode]
    {
      var index := match w case F1 => 0 case F2 => 1 case F3 => 2 case F4 => 3;
      windowModes[index] := mode;
    }

    /** Moves the selected window's directory cursor by `delta` within the
        listing; nothing happens when the filename bar is selected or the
        window is editing. */
    method MoveCursor(delta: int)
      requires Valid()
      modifies windowModes
      ensures Valid()
      ensures selected.Window? ==>
                windowModes[..] == old(windowModes[..])[selected.w.Index() :=
                                     MovedMode(old(windowModes[selected.w.Index()]), delta, |fs.names|)]
      ensures selected.Filebar? ==> windowModes[..] == old(windowModes[..])
    {
      if selected.Window? {
        var window := selected.w;
        var mode := GetWindowMode(window);
        if mode.Directory? {
          var fileCount := |fs.names|;
          var dirState := new DirectoryState(mode.cursor);
          dirState.MoveCursor(delta, fileCount);
          SetWindowMode(window, Directory(dirState.cursor));
        }
      }
    }

    /** On a window listing the directory, opens the file under its cursor
        in an editor; on an editing window nothing happens. */
    method SwitchToEditMode(window: KWindows)
      requires Valid()
      requires GetWindowMode(window).Directory? ==> isText(fs.names[GetWindowMode(window).cursor])
      modifies windowModes
      ensures Valid()
      ensures old(GetWindowMode(window)).Directory? ==>
                windowModes[..] == old(windowModes[..])[window.Index() :=
                                     EditedMode(fs, old(GetWindowMode(window)).cursor)]
      ensures old(GetWindowMode(window)).Editing? ==> windowModes[..] == old(windowModes[..])
    {
      // The steps of src/lib.rs:559-571; `EditedMode` is their specification.
      var mode := GetWindowMode(window);
      if mode.Directory? {
        var chosenFile := mode.cursor;
        var fileCount, directory := |fs.names|, fs.names;
        assert chosenFile < fileCount;
        var filesize := |ReadFile(fs, chosenFile, PRACTICAL_FILE_BUFFER_SIZE)|;
        var buffer := ReadFile(fs, chosenFile, PRACTICAL_FILE_BUFFER_SIZE) + Fill(0, PRACTICAL_FILE_BUFFER_SIZE - filesize);
        SetWindowMode(window, EditingMode(directory[chosenFile], buffer, filesize, chosenFile));
      }
    }

    /** On an editing window, saves the edited bytes over the file and
        returns to the directory with the cursor on that file; on a window
        listing the directory nothing happens. */
    method SwitchToDirectoryMode(window: KWindows)
      requires Valid()
      modifies this, windowModes
      ensures Valid() && selected == old(selected)
      ensures var m := old(GetWindowMode(window));
              m.Editing? ==>
                && fs == SavedStore(old(fs), m)
                && windowModes[..] == old(windowModes[..])[window.Index() := Directory(m.directoryIndex)]
      ensures old(GetWindowMode(window)).Directory? ==> fs == old(fs) && windowModes[..] == old(windowModes[..])
    {
      var mode := GetWindowMode(window);
      if mode.Editing? {
        fs := SavedStore(fs, mode);
        SetWindowMode(window, Directory(mode.directoryIndex));
        forall i | 0 <= i < NUM_WINDOWS
          ensures SlotValid(windowModes[i], fs, isText)
        {
          assert SlotValid(old(windowModes[i]), old(fs), isText);
        }
      }
    }

    /** Enter in the filename bar: takes the typed name and clears the bar,
        then creates (or truncates) the file of that name when the name is
        text. */
    method TryCreateFile()
      requires Valid()
      requires isText(filebar.Text()) ==> CanCreate(fs, filebar.Text())
      modifies this, filebar, filebar.buffer
      ensures Valid() && selected == old(selected)
      ensures filebar.Text() == [] && filebar.buffer[..] == Fill(0, MAX_FILENAME_BYTES)
      ensures fs == if isText(old(filebar.Text())) then Create(old(fs), old(filebar.Text())) else old(fs)
    {
      var nameLen, nameBytes := filebar.GetBytes();
      filebar.Clear();
      if isText(nameBytes[..nameLen]) {
        forall i | 0 <= i < NUM_WINDOWS
          ensures SlotValid(windowModes[i], Create(fs, nameBytes[..nameLen]), isText)
        {
          CreateKeepsSlots(windowModes[i], fs, nameBytes[..nameLen], isText);
        }
        fs := Create(fs, nameBytes[..nameLen]);
      }
    }

    /** A raw key: F1 to F4 select a window and F5 the filename bar, F6
        closes the selected window's editor, the arrows move the selected
        window's directory cursor, and every other key is ignored. */
    method HandleRaw(key: KeyCode)
      requires Valid()
      modifies this, windowModes
      ensures Valid()
      ensures key.Fn? && 1 <= key.n <= NUM_WINDOWS ==>
                selected == Window(WindowOf(key.n)) && fs == old(fs) && windowModes[..] == old(windowModes[..])
      ensures key == Fn(5) ==> selected == Filebar && fs == old(fs) && windowModes[..] == old(windowModes[..])
      ensures key == Fn(6) ==>
                selected == old(selected) &&
                (old(selected).Filebar? ==> fs == old(fs) && windowModes[..] == old(windowModes[..])) &&
                (old(selected).Window? && old(GetWindowMode(selected.w)).Editing? ==>
                   var m := old(GetWindowMode(selected.w));
                   && fs == SavedStore(old(fs), m)
                   && windowModes[..] == old(windowModes[..])[selected.w.Index() := Directory(m.directoryIndex)]) &&
                (old(selected).Window? && old(GetWindowMode(selected.w)).Directory? ==>
                   fs == old(fs) && windowModes[..] == old(windowModes[..]))
      ensures (key.ArrowUp? || key.ArrowDown? || key.ArrowLeft? || key.ArrowRight?) ==>
                selected == old(selected) && fs == old(fs) &&
                (selected.Window? ==>
                   windowModes[..] == old(windowModes[..])[selected.w.Index() :=
                     MovedMode(old(windowModes[selected.w.Index()]), ArrowDelta(key), |fs.names|)]) &&
                (selected.Filebar? ==> windowModes[..] == old(windowModes[..]))
      ensures key == OtherKey || (key.Fn? && (key.n == 0 || key.n > 6)) ==>
                selected == old(selected) && fs == old(fs) && windowModes[..] == old(windowModes[..])
    {
      match key
      case Fn(n) =>
        if 1 <= n <= NUM_WINDOWS {
          selected := Window(WindowOf(n));
        } else if n == 5 {
          selected := Filebar;
        } else if n == 6 {
          if selected.Window? {
            SwitchToDirectoryMode(selected.w);
          }
        }
      case ArrowUp => MoveCursor(ArrowDelta(key));
      case ArrowDown => MoveCursor(ArrowDelta(key));
      case ArrowLeft => MoveCursor(ArrowDelta(key));
      case ArrowRight => MoveCursor(ArrowDelta(key));
      case OtherKey =>
    }

    /** A character key. With the filename bar selected, backspace deletes,
        Enter tries to create the typed file and a drawable character is
        typed; with a window selected, 'e' opens the file under its cursor.
        Everything else is ignored. */
    method HandleUnicode(key: char)
      requires Valid()
      requires selected.Filebar? && key == '\n' && isText(filebar.Text()) ==> CanCreate(fs, filebar.Text())
      requires selected.Window? && key == 'e' && GetWindowMode(selected.w).Directory? ==>
                 isText(fs.names[GetWindowMode(selected.w).cursor])
      modifies this, windowModes, filebar, filebar.buffer
      ensures Valid() && selected == old(selected)
      ensures selected.Filebar? ==> windowModes[..] == old(windowModes[..])
      ensures selected.Filebar? && key == '\U{8}' ==>
                fs == old(fs) &&
                filebar.Text() == (if old(filebar.cursor) == 0 then [] else old(filebar.Text())[..old(filebar.cursor) - 1])
      ensures selected.Filebar? && key == '\n' ==>
                filebar.Text() == [] &&
                fs == if isText(old(filebar.Text())) then Create(old(fs), old(filebar.Text())) else old(fs)
      ensures selected.Filebar? && key != '\U{8}' && key != '\n' && isDrawable(key) ==>
                fs == old(fs) &&
                filebar.Text() == (if old(filebar.cursor) == MAX_FILENAME_BYTES then old(filebar.Text())
                                   else old(filebar.Text()) + [CharToByte(key)])
      ensures selected.Filebar? && key != '\U{8}' && key != '\n' && !isDrawable(key) ==>
                fs == old(fs) && filebar.Text() == old(filebar.Text())
      ensures selected.Window? ==> fs == old(fs) && filebar.Text() == old(filebar.Text())
      ensures selected.Window? && key == 'e' && old(GetWindowMode(selected.w)).Directory? ==>
                windowModes[..] == old(windowModes[..])[selected.w.Index() :=
                                     EditedMode(fs, old(GetWindowMode(selected.w)).cursor)]
      ensures selected.Window? && (key != 'e' || old(GetWindowMode(selected.w)).Editing?) ==>
                windowModes[..] == old(windowModes[..])
    {
      match selected
      case Filebar =>
        if key == '\U{8}' {
          filebar.Backspace();
        } else if key == '\n' {
          TryCreateFile();
        } else if isDrawable(key) {
          filebar.TypeChar(key);
        }
      case Window(window) =>
        if key == 'e' {
          SwitchToEditMode(window);
        }
    }
  }
}
