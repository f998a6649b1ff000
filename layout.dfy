/** The fixed screen geometry: four windows tiled two by two to the left of a
    task-manager column, below a one-row filename bar. */
module Layout {

  /** Dimensions of the VGA text screen. They belong to the display driver,
      which is not part of this model; these are the 80x25 text-mode values. */
  const BUFFER_WIDTH: nat := 80
  const BUFFER_HEIGHT: nat := 25

  const FIRST_BORDER_ROW: nat := 1
  const LAST_BORDER_ROW: nat := BUFFER_HEIGHT - 1
  const TASK_MANAGER_WIDTH: nat := 10
  const WINDOWS_WIDTH: nat := BUFFER_WIDTH - TASK_MANAGER_WIDTH
  /** Interior width of a window, which is also the editor's wrap width. */
  const WINDOW_WIDTH: nat := (WINDOWS_WIDTH - 3) / 2
  const WINDOW_HEIGHT: nat := (LAST_BORDER_ROW - FIRST_BORDER_ROW - 2) / 2
  const MID_WIDTH: nat := WINDOWS_WIDTH / 2
  const MID_HEIGHT: nat := BUFFER_HEIGHT / 2
  const NUM_WINDOWS: nat := 4
  const WINDOW_LABEL_COL_OFFSET: nat := WINDOW_WIDTH - 3

  datatype KWindows = F1 | F2 | F3 | F4 {

    /** Slot of this window in the kernel's array of window modes. */
    function Index(): (i: nat)
      ensures i < NUM_WINDOWS
      ensures i == 0 <==> this == F1
      ensures i == 1 <==> this == F2
      ensures i == 2 <==> this == F3
      ensures i == 3 <==> this == F4
    {
      match this
      case F1 => 0
      case F2 => 1
      case F3 => 2
      case F4 => 3
    }

    /** Column of the window's left border. The whole window, borders
        included, lies inside the windows area; the left windows' right
        border is the right windows' left border. */
    function Col(): (c: nat)
      ensures c + WINDOW_WIDTH + 1 < WINDOWS_WIDTH
      ensures (this == F1 || this == F3) ==> c == 0
      ensures (this == F2 || this == F4) ==> c == WINDOW_WIDTH + 1
    {
      match this
      case F1 => 0
      case F2 => MID_WIDTH - 1
      case F3 => 0
      case F4 => MID_WIDTH - 1
    }

    /** Row of the window's top border. The whole window lies between the
        filename bar and the last screen row; the upper windows' bottom border
        is the lower windows' top border. */
    function Row(): (r: nat)
      ensures FIRST_BORDER_ROW <= r
      ensures r + WINDOW_HEIGHT + 1 <= LAST_BORDER_ROW
      ensures (this == F1 || this == F2) ==> r == FIRST_BORDER_ROW
      ensures (this == F3 || this == F4) ==> r == FIRST_BORDER_ROW + WINDOW_HEIGHT + 1
    {
      match this
      case F1 => FIRST_BORDER_ROW
      case F2 => FIRST_BORDER_ROW
      case F3 => MID_HEIGHT
      case F4 => MID_HEIGHT
    }

    /** The label drawn on the window's top border: "F" and its number,
        which fits between the corners of that border. */
    function Name(): (s: string)
      ensures |s| == 2 && s[0] == 'F'
      ensures s[1] as int == '1' as int + Index()
      ensures WINDOW_LABEL_COL_OFFSET + |s| <= WINDOW_WIDTH + 1
    {
      match this
      case F1 => "F1"
      case F2 => "F2"
      case F3 => "F3"
      case F4 => "F4"
    }
  }

  /** Two windows with the same origin are the same window, and so are two
      windows with the same label. */
  lemma OriginsAndNamesDistinct(a: KWindows, b: KWindows)
    ensures a.Col() == b.Col() && a.Row() == b.Row() ==> a == b
    ensures a.Name() == b.Name() ==> a == b
  {
    assert a.Name()[1] as int == '1' as int + a.Index();
  }
}
