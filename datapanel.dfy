/**
 * The menu panel of the console app (JsonWorker/DataPanel.cs): a jagged
 * grid of menu items, one group per row, exactly one of them marked
 * Selected, moved about by the arrow keys.  The grid is modelled by the
 * Selected flags alone, group by group; the item names and actions only
 * matter for drawing, which is left out.
 *
 * Indexing past the end of a group, which the source does in two places,
 * raises IndexOutOfRangeException there; here it is the `ok == false`
 * outcome, with the flags left as the source leaves them.
 */
module Panel {
  import opened Common

  type Grid = seq<seq<bool>>

  /** The first selected column of `row` at or after `from`. */
  function FirstIn(row: seq<bool>, from: nat): (r: Option<nat>)
    requires from <= |row|
    ensures r.Some? ==> from <= r.value < |row| && row[r.value]
    ensures r.Some? ==> forall c :: from <= c < r.value ==> !row[c]
    ensures r.None? ==> forall c :: from <= c < |row| ==> !row[c]
    decreases |row| - from
  {
    if from == |row| then None
    else if row[from] then Some(from)
    else FirstIn(row, from + 1)
  }

  /** The first selected item in row-major order, from group `from` on. */
  function FirstFrom(g: Grid, from: nat): (r: Option<(nat, nat)>)
    requires from <= |g|
    ensures r.Some? ==> from <= r.value.0 < |g| && r.value.1 < |g[r.value.0]| && g[r.value.0][r.value.1]
    ensures r.Some? ==> forall c :: 0 <= c < r.value.1 ==> !g[r.value.0][c]
    ensures r.Some? ==> forall i, c :: from <= i < r.value.0 && 0 <= c < |g[i]| ==> !g[i][c]
    ensures r.None? ==> forall i, c :: from <= i < |g| && 0 <= c < |g[i]| ==> !g[i][c]
    decreases |g| - from
  {
    if from == |g| then None
    else match FirstIn(g[from], 0)
      case Some(c) => Some((from, c))
      case None => FirstFrom(g, from + 1)
  }

  /** The loop of GetSelectedItemIndexes: the first selected item, by group and then by column. */
  function FirstSelected(g: Grid): Option<(nat, nat)> {
    FirstFrom(g, 0)
  }

  /** No item before (r, c) in row-major order is selected. */
  predicate NoneBefore(g: Grid, r: nat, c: nat)
    requires r < |g| && c <= |g[r]|
  {
    && (forall i, j :: 0 <= i < r && 0 <= j < |g[i]| ==> !g[i][j])
    && (forall j :: 0 <= j < c ==> !g[r][j])
  }

  /** The first selected item is the selected item with none selected before it. */
  lemma FirstSelectedIs(g: Grid, r: nat, c: nat)
    requires r < |g| && c < |g[r]|
    ensures FirstSelected(g) == Some((r, c)) <==> g[r][c] && NoneBefore(g, r, c)
  {
  }

  /** Nothing is selected exactly when the search finds nothing. */
  lemma NothingSelected(g: Grid)
    ensures FirstSelected(g).None? <==>
      forall i, j :: 0 <= i < |g| && 0 <= j < |g[i]| ==> !g[i][j]
  {
  }

  /** Item [0][0] exists. */
  predicate HasFirstItem(g: Grid) { |g| > 0 && |g[0]| > 0 }

  /**
   * The position GetSelectedItemIndexes returns: the first selected item,
   * else [0][0]; None when nothing is selected and group 0 has no item
   * (the source throws).
   */
  function Located(g: Grid): (r: Option<(nat, nat)>)
    ensures r.Some? ==> r.value.0 < |g| && r.value.1 < |g[r.value.0]|
    ensures r.None? <==> FirstSelected(g).None? && !HasFirstItem(g)
  {
    if FirstSelected(g).Some? then FirstSelected(g)
    else if HasFirstItem(g) then Some((0, 0))
    else None
  }

  /** The flags after GetSelectedItemIndexes: [0][0] is marked when nothing was selected. */
  function Ensured(g: Grid): (e: Grid)
    ensures |e| == |g| && forall i :: 0 <= i < |g| ==> |e[i]| == |g[i]|
    ensures forall i, j :: 0 <= i < |g| && 0 <= j < |g[i]| ==>
      e[i][j] == (g[i][j] || (i == 0 && j == 0 && FirstSelected(g).None?))
  {
    if FirstSelected(g).None? && HasFirstItem(g) then g[0 := g[0][0 := true]] else g
  }

  /** After GetSelectedItemIndexes the item it returns is selected and is the first one; a second call changes nothing. */
  lemma LocatedIsSelected(g: Grid)
    requires Located(g).Some?
    ensures var (r, c) := Located(g).value; Ensured(g)[r][c]
    ensures FirstSelected(Ensured(g)) == Located(g)
    ensures Ensured(Ensured(g)) == Ensured(g) && Located(Ensured(g)) == Located(g)
  {
    var e := Ensured(g);
    if FirstSelected(g).None? {
      assert e[0][0];
      FirstSelectedIs(e, 0, 0);
    }
  }

  /** Only (r, c) is selected. */
  predicate OnlySelected(g: Grid, r: nat, c: nat) {
    && r < |g| && c < |g[r]| && g[r][c]
    && forall i, j :: 0 <= i < |g| && 0 <= j < |g[i]| && g[i][j] ==> i == r && j == c
  }

  /** When one item alone is selected, the search finds it. */
  lemma OnlySelectedIsFirst(g: Grid, r: nat, c: nat)
    requires OnlySelected(g, r, c)
    ensures FirstSelected(g) == Some((r, c)) && Located(g) == Some((r, c)) && Ensured(g) == g
  {
    FirstSelectedIs(g, r, c);
  }

  /** Set one flag. */
  function Mark(g: Grid, r: nat, c: nat, b: bool): (m: Grid)
    requires r < |g| && c < |g[r]|
    ensures |m| == |g| && forall i :: 0 <= i < |g| ==> |m[i]| == |g[i]|
    ensures forall i, j :: 0 <= i < |g| && 0 <= j < |g[i]| ==> m[i][j] == if i == r && j == c then b else g[i][j]
  {
    g[r := g[r][c := b]]
  }

  /** The outcome of a panel step: the flags, and false when the source throws. */
  datatype Step = Step(flags: Grid, ok: bool)

  /** The three cases in which UpdateSelectedItem leaves the selection where it is. */
  predicate Unmoved(g: Grid, cr: nat, cc: nat, row: int, col: int)
    requires cr < |g|
  {
    (cr == row && cc == col) || col >= |g[cr]| || col < 0 || row >= |g| || row < 0
  }

  /** The column the selection lands on: on a change of group, clamped to the target group's last item. */
  function Clamp(g: Grid, cr: nat, row: nat, col: nat): int
    requires row < |g|
  {
    if row != cr && col >= |g[row]| then |g[row]| - 1 else col
  }

  /**
   * UpdateSelectedItem: locate the selection (as GetSelectedItemIndexes
   * does), give up in the three no-move cases, else clear the current
   * flag and set the target one.  When the target group is empty the
   * clamped column is -1 and setting it throws after the clear.
   */
  function Update(g: Grid, row: int, col: int): (s: Step)
    ensures |s.flags| == |g| && forall i :: 0 <= i < |g| ==> |s.flags[i]| == |g[i]|
  {
    var e := Ensured(g);
    match Located(g)
    case None => Step(g, false)
    case Some((cr, cc)) =>
      if Unmoved(e, cr, cc, row, col) then Step(e, true)
      else
        var target := Clamp(e, cr, row, col);
        var cleared := Mark(e, cr, cc, false);
        if target < 0 then Step(cleared, false)
        else Step(Mark(cleared, row, target, true), true)
  }

  /** In the three no-move cases the only difference an update makes is the [0][0] default. */
  lemma UnmovedChangesNothing(g: Grid, row: int, col: int)
    requires Located(g).Some?
    requires var (cr, cc) := Located(g).value; Unmoved(Ensured(g), cr, cc, row, col)
    ensures Update(g, row, col) == Step(Ensured(g), true)
  {
  }

  /**
   * A move between groups of an item that is alone selected: the column
   * is clamped to the last one of the target group, exactly the target
   * is selected afterwards, and every other flag is as before.
   */
  lemma UpdateMoves(g: Grid, cr: nat, cc: nat, row: int, col: int)
    requires OnlySelected(g, cr, cc) && !Unmoved(g, cr, cc, row, col)
    requires |g[row]| > 0
    ensures var target := Clamp(g, cr, row, col);
      && 0 <= target < |g[row]|
      && (row != cr && col >= |g[row]| ==> target == |g[row]| - 1)
      && (row == cr || col < |g[row]| ==> target == col)
      && Update(g, row, col).ok
      && OnlySelected(Update(g, row, col).flags, row, target)
      && Update(g, row, col).flags == Mark(Mark(g, cr, cc, false), row, target, true)
  {
    OnlySelectedIsFirst(g, cr, cc);
  }

  /** A selected item stays the only one through any update that does not throw. */
  lemma UpdateKeepsOneSelected(g: Grid, cr: nat, cc: nat, row: int, col: int)
    requires OnlySelected(g, cr, cc) && Update(g, row, col).ok
    ensures exists r: nat, c: nat :: OnlySelected(Update(g, row, col).flags, r, c)
  {
    OnlySelectedIsFirst(g, cr, cc);
    if Unmoved(g, cr, cc, row, col) {
      assert OnlySelected(Update(g, row, col).flags, cr, cc);
    } else {
      UpdateMoves(g, cr, cc, row, col);
      var target := Clamp(g, cr, row, col);
      assert OnlySelected(Update(g, row, col).flags, row as nat, target as nat);
    }
  }

  /** An update throws only when it moves into a group with no items, or when there is nothing to locate. */
  lemma UpdateFailsOnlyOnEmptyGroup(g: Grid, row: int, col: int)
    ensures !Update(g, row, col).ok <==>
      Located(g).None? ||
      (var (cr, cc) := Located(g).value; !Unmoved(Ensured(g), cr, cc, row, col) && |g[row]| == 0)
  {
  }

  /** The keys HandleKeys tells apart. */
  datatype Key = DownArrow | UpArrow | LeftArrow | RightArrow | Q | Enter | OtherKey

  /** The position an arrow key aims at: one group down or up, one item left or right. */
  function KeyTarget(key: Key, row: int, col: int): (int, int) {
    match key
    case DownArrow => (row + 1, col)
    case UpArrow => (row - 1, col)
    case LeftArrow => (row, col - 1)
    case RightArrow => (row, col + 1)
    case _ => (row, col)
  }

  /** Enter and any key HandleKeys does not know return before the update. */
  predicate Moves(key: Key) { !(key.Enter? || key.OtherKey?) }

  /** The flags after HandleKeys: locate, then update towards the key's target when the key is one that moves. */
  function KeyStep(g: Grid, key: Key): (s: Step)
    ensures |s.flags| == |g| && forall i :: 0 <= i < |g| ==> |s.flags[i]| == |g[i]|
  {
    match Located(g)
    case None => Step(g, false)
    case Some((r, c)) =>
      if Moves(key) then
        var (tr, tc) := KeyTarget(key, r, c);
        Update(Ensured(g), tr, tc)
      else Step(Ensured(g), true)
  }

  /** Q, Enter and an unknown key leave the selection where it is. */
  lemma NonArrowKeepsSelection(g: Grid, key: Key)
    requires key.Q? || key.Enter? || key.OtherKey?
    requires Located(g).Some?
    ensures KeyStep(g, key) == Step(Ensured(g), true)
    ensures FirstSelected(KeyStep(g, key).flags) == Located(g)
  {
    LocatedIsSelected(g);
  }

  /**
   * Down from the only selected item, when there is a non-empty group
   * below: the item of the same column there (or its last item) is
   * selected alone afterwards.
   */
  lemma DownMovesOneGroup(g: Grid, r: nat, c: nat)
    requires OnlySelected(g, r, c) && r + 1 < |g| && |g[r + 1]| > 0
    ensures var target := if c < |g[r + 1]| then c else |g[r + 1]| - 1;
      KeyStep(g, DownArrow).ok && OnlySelected(KeyStep(g, DownArrow).flags, r + 1, target)
  {
    OnlySelectedIsFirst(g, r, c);
    UpdateMoves(g, r, c, r + 1, c);
  }

  /** Right from the only selected item, when it is not the last of its group: its right neighbour is selected alone. */
  lemma RightMovesOneItem(g: Grid, r: nat, c: nat)
    requires OnlySelected(g, r, c) && c + 1 < |g[r]|
    ensures KeyStep(g, RightArrow).ok && OnlySelected(KeyStep(g, RightArrow).flags, r, c + 1)
  {
    OnlySelectedIsFirst(g, r, c);
    UpdateMoves(g, r, c, r, c + 1);
  }

  /** Left at the first item of a group and Up at the first group change nothing. */
  lemma EdgesStop(g: Grid, r: nat, c: nat)
    requires OnlySelected(g, r, c)
    ensures c == 0 ==> KeyStep(g, LeftArrow) == Step(g, true)
    ensures r == 0 ==> KeyStep(g, UpArrow) == Step(g, true)
    ensures c == |g[r]| - 1 ==> KeyStep(g, RightArrow) == Step(g, true)
    ensures r == |g| - 1 ==> KeyStep(g, DownArrow) == Step(g, true)
  {
    OnlySelectedIsFirst(g, r, c);
  }

  /** The panel: the flags of its items, and the two flags its Run loop watches. */
  class DataPanel {
    var groups: Grid
    var toExit: bool
    var elementSelected: bool

    /** The constructor selects [0][0] when no item is selected yet. */
    constructor(menu: Grid)
      requires Located(menu).Some?
      ensures groups == Ensured(menu) && !toExit && !elementSelected
      ensures FirstSelected(groups) == Located(menu)
    {
      groups := menu;
      toExit := false;
      elementSelected := false;
      new;
      var found := GetSelectedItemIndexes();
      var (rowIndex, columnIndex) := found.value;
      var ok := UpdateSelectedItem(rowIndex, columnIndex);
      LocatedIsSelected(menu);
    }

    /** The first selected item in row-major order, marking [0][0] when there is none. */
    method GetSelectedItemIndexes() returns (found: Option<(nat, nat)>)
      modifies this
      ensures found == Located(old(groups)) && groups == Ensured(old(groups))
      ensures toExit == old(toExit) && elementSelected == old(elementSelected)
    {
      var rowIndex := 0;
      while rowIndex < |groups|
        invariant 0 <= rowIndex <= |groups| && groups == old(groups)
        invariant forall i, j :: 0 <= i < rowIndex && 0 <= j < |groups[i]| ==> !groups[i][j]
      {
        var items := groups[rowIndex];
        var columnIndex := 0;
        while columnIndex < |items|
          invariant 0 <= columnIndex <= |items|
          invariant forall j :: 0 <= j < columnIndex ==> !items[j]
        {
          if items[columnIndex] {
            FirstSelectedIs(groups, rowIndex, columnIndex);
            return Some((rowIndex, columnIndex));
          }
          columnIndex := columnIndex + 1;
        }
        rowIndex := rowIndex + 1;
      }
      NothingSelected(groups);
      if |groups| == 0 || |groups[0]| == 0 {
        return None;
      }
      groups := groups[0 := groups[0][0 := true]];
      return Some((0, 0));
    }

    /** Move the selection to (updatedRow, updatedColumn); false when the source throws. */
    method UpdateSelectedItem(updatedRow: int, updatedColumn: int) returns (ok: bool)
      modifies this
      ensures Update(old(groups), updatedRow, updatedColumn) == Step(groups, ok)
      ensures toExit == old(toExit) && elementSelected == old(elementSelected)
    {
      var current := GetSelectedItemIndexes();
      if current.None? {
        return false;
      }
      var (currentRow, currentColumn) := current.value;
      var column := updatedColumn;
      var rowItems := groups[currentRow];
      if (currentRow == updatedRow && currentColumn == column)
        || column >= |rowItems| || column < 0
        || updatedRow >= |groups| || updatedRow < 0
      {
        return true;
      }
      if updatedRow != currentRow {
        var nextRowItems := groups[updatedRow];
        if column >= |nextRowItems| {
          column := |nextRowItems| - 1;
        }
      }
      groups := groups[currentRow := rowItems[currentColumn := false]];
      if column < 0 {
        return false;
      }
      groups := groups[updatedRow := groups[updatedRow][column := true]];
      return true;
    }

    /** One key press: the arrows move the selection, Q asks to exit, Enter picks the selected item. */
    method HandleKeys(pressedButtonKey: Key) returns (ok: bool)
      modifies this
      ensures KeyStep(old(groups), pressedButtonKey) == Step(groups, ok)
      ensures toExit == (old(toExit) || (ok && pressedButtonKey.Q?))
      ensures elementSelected == (old(elementSelected) || (ok && pressedButtonKey.Enter?))
    {
      ghost var start := groups;
      var found := GetSelectedItemIndexes();
      if found.None? {
        return false;
      }
      var rowIndex: int, columnIndex: int := found.value.0, found.value.1;
      match pressedButtonKey {
        case DownArrow => rowIndex := rowIndex + 1;
        case UpArrow => rowIndex := rowIndex - 1;
        case LeftArrow => columnIndex := columnIndex - 1;
        case RightArrow => columnIndex := columnIndex + 1;
        case Q => toExit := true;
        case Enter =>
          elementSelected := true;
          return true;
        case OtherKey =>
          return true;
      }
      LocatedIsSelected(start);
      ok := UpdateSelectedItem(rowIndex, columnIndex);
    }
  }
}
