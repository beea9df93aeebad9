/**
 * The selection and scrolling state of the process list (the globals
 * selected_index and scroll_offset of the text interface), how drawing the
 * list clamps and scrolls them, and the keys that change them or name an
 * action. Everything ncurses draws is outside the model; drawing is reduced
 * to the range of list rows it shows.
 */
module Ui {
  import opened Text

  datatype Action = NoAction | Help | Search | Pause | Resume | Kill | Restart | Quit

  /** ncurses key codes. */
  const ERR: int := -1
  const KEY_DOWN: int := 0x102
  const KEY_UP: int := 0x103
  const KEY_F0: int := 0x108

  function KeyF(n: nat): int { KEY_F0 + n }

  /** Rows of the screen above the list: header, column titles and rule. */
  const HeaderRows: int := 4

  /**
   * The action a key stands for: a function key or a letter for each command,
   * q or Q to quit; the arrows, ERR and every other key stand for none.
   */
  function KeyAction(ch: int): (a: Action)
    ensures a == Help <==> ch == KeyF(1) || ch == 'h' as int
    ensures a == Search <==> ch == KeyF(4) || ch == 'f' as int
    ensures a == Pause <==> ch == KeyF(5) || ch == 'p' as int
    ensures a == Resume <==> ch == KeyF(6) || ch == 's' as int
    ensures a == Kill <==> ch == KeyF(7) || ch == 'k' as int
    ensures a == Restart <==> ch == KeyF(8) || ch == 'r' as int
    ensures a == Quit <==> ch == 'q' as int || ch == 'Q' as int
    ensures ch == ERR || ch == KEY_UP || ch == KEY_DOWN ==> a == NoAction
  {
    if ch == ERR then NoAction
    else if ch == KeyF(1) || ch == 'h' as int then Help
    else if ch == KeyF(4) || ch == 'f' as int then Search
    else if ch == KeyF(5) || ch == 'p' as int then Pause
    else if ch == KeyF(6) || ch == 's' as int then Resume
    else if ch == KeyF(7) || ch == 'k' as int then Kill
    else if ch == KeyF(8) || ch == 'r' as int then Restart
    else if ch == 'q' as int || ch == 'Q' as int then Quit
    else NoAction
  }

  /** The selection after the clamp: within the list when there is one, untouched otherwise. */
  function Clamped(selected: int, count: int): (r: int)
    ensures count > 0 ==> 0 <= r < count
    ensures count <= 0 ==> r == selected
    ensures 0 <= selected < count ==> r == selected
    ensures count > 0 && selected >= count ==> r == count - 1
    ensures count > 0 && selected < 0 ==> r == 0
  {
    if count <= 0 then selected
    else if selected >= count then count - 1
    else if selected < 0 then 0
    else selected
  }

  /**
   * The scroll offset after the adjustment: the smallest move that brings the
   * selected row into a window of `height` rows.
   */
  function Scrolled(selected: int, offset: int, height: int): (r: int)
    requires height > 0
    ensures r <= selected < r + height
    ensures offset <= selected < offset + height ==> r == offset
    ensures selected < offset ==> r == selected
    ensures selected >= offset + height ==> r == selected - height + 1
    ensures offset >= 0 && selected >= 0 ==> r >= 0
  {
    if selected < offset then selected
    else if selected >= offset + height then selected - height + 1
    else offset
  }

  /** The rows drawn: from the offset to the end of the window or of the list. */
  function Visible(offset: int, height: int, count: int): (range: (int, int))
    ensures range.0 == offset
    ensures range.1 <= count && range.1 - range.0 <= height
    ensures offset + height <= count ==> range.1 == offset + height
    ensures offset + height > count ==> range.1 == count
  {
    (offset, if offset + height > count then count else offset + height)
  }

  /** Once the list is drawn, the selected row is one of the rows shown. */
  lemma SelectionShown(selected: int, offset: int, height: int, count: int)
    requires height > 0 && count > 0
    ensures var s := Clamped(selected, count);
            var range := Visible(Scrolled(s, offset, height), height, count);
            range.0 <= s < range.1
  {
  }

  /** Drawing twice in a row changes nothing the second time. */
  lemma DrawSettles(selected: int, offset: int, height: int, count: int)
    requires height > 0
    ensures var s := Clamped(selected, count);
            var o := Scrolled(s, offset, height);
            Clamped(s, count) == s && Scrolled(s, o, height) == o
  {
  }

  class Ui {
    var selectedIndex: int
    var scrollOffset: int

    /** Neither the selection nor the offset goes below zero: the methods keep this once it holds. */
    ghost predicate Valid()
      reads this
    {
      selectedIndex >= 0 && scrollOffset >= 0
    }

    constructor ()
      ensures selectedIndex == 0 && scrollOffset == 0
      ensures Valid()
    {
      selectedIndex := 0;
      scrollOffset := 0;
    }

    /**
     * The state changes of ui_draw_processes on a terminal of `lines` rows:
     * nothing at all when no row is left for the list; otherwise the clamp,
     * then the scroll adjustment. The result is the range of rows drawn.
     */
    method DrawProcesses(count: int, lines: int) returns (rows: Option<(int, int)>)
      modifies this
      ensures old(Valid()) ==> Valid()
      ensures lines - HeaderRows <= 0 ==>
                rows == None && selectedIndex == old(selectedIndex) && scrollOffset == old(scrollOffset)
      ensures lines - HeaderRows > 0 ==>
                && selectedIndex == Clamped(old(selectedIndex), count)
                && scrollOffset == Scrolled(selectedIndex, old(scrollOffset), lines - HeaderRows)
                && rows == Some(Visible(scrollOffset, lines - HeaderRows, count))
    {
      var height := lines - HeaderRows;
      if height <= 0 {
        return None;
      }
      if count > 0 {
        if selectedIndex >= count {
          selectedIndex := count - 1;
        }
        if selectedIndex < 0 {
          selectedIndex := 0;
        }
      }
      if selectedIndex < scrollOffset {
        scrollOffset := selectedIndex;
      } else if selectedIndex >= scrollOffset + height {
        scrollOffset := selectedIndex - height + 1;
      }
      var start := scrollOffset;
      var end := scrollOffset + height;
      if end > count {
        end := count;
      }
      rows := Some((start, end));
    }

    /** ui_get_action for a key already read: the arrows move the selection, other keys name an action. */
    method GetAction(ch: int) returns (a: Action)
      modifies this
      ensures old(Valid()) ==> Valid()
      ensures a == KeyAction(ch)
      ensures scrollOffset == old(scrollOffset)
      ensures ch == KEY_UP ==> selectedIndex == if old(selectedIndex) > 0 then old(selectedIndex) - 1 else old(selectedIndex)
      ensures ch == KEY_DOWN ==> selectedIndex == old(selectedIndex) + 1
      ensures ch != KEY_UP && ch != KEY_DOWN ==> selectedIndex == old(selectedIndex)
    {
      if ch == ERR {
        return NoAction;
      }
      if ch == KEY_UP {
        if selectedIndex > 0 {
          selectedIndex := selectedIndex - 1;
        }
        return NoAction;
      }
      if ch == KEY_DOWN {
        selectedIndex := selectedIndex + 1;
        return NoAction;
      }
      a := KeyAction(ch);
    }
  }
}
