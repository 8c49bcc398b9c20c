/** Where desktop.c puts icons, as functions of the screen and of the icons already placed. */
module DesktopGrid {
  import opened Basics

  function Max(a: int, b: int): int { if a > b then a else b }

  function Abs(a: int): int { if a < 0 then -a else a }

  datatype Rect = Rect(x: int, y: int, width: int, height: int)

  datatype Pos = Pos(x: int, y: int)

  const ICON_MARGIN := 12

  predicate Overlap(ax: int, ay: int, aw: int, ah: int, b: Rect) {
    ax < b.x + b.width && ax + aw > b.x && ay < b.y + b.height && ay + ah > b.y
  }

  /** The work area and monitor geometry, the icon size, and the rectangle kept for drives. */
  datatype Screen = Screen(workarea: Rect, geometry: Rect, iconSize: int, drives: Rect)
  {
    function Left(): int { Max(0, workarea.x - geometry.x) }
    function Top(): int { Max(0, workarea.y - geometry.y) }

    // desktop_item_bounds
    function MinX(): int { Left() + ICON_MARGIN }
    function MinY(): int { Top() + ICON_MARGIN }
    function MaxX(itemWidth: int): int {
      Max(Left() + ICON_MARGIN, Left() + workarea.width - itemWidth - ICON_MARGIN)
    }
    function MaxY(itemHeight: int): int {
      Max(Top() + ICON_MARGIN, Top() + workarea.height - itemHeight - ICON_MARGIN)
    }

    // the nominal size of an icon, the distance at which two icons are clear of each other,
    // and the pitch of the grid
    function ItemWidth(): int { Max(96, iconSize + 48) }
    function ItemHeight(): int { Max(78, iconSize + 46) }
    function ClearX(): int { Max(92, iconSize + 48) }
    function ClearY(): int { Max(82, iconSize + 48) }
    function StepX(): int { Max(100, iconSize + 52) }
    function StepY(): int { Max(88, iconSize + 52) }

    /** desktop_position_hits_drives */
    predicate HitsDrives(p: Pos) {
      && drives.width > 0 && drives.height > 0
      && Overlap(p.x, p.y, ItemWidth(), ItemHeight(), drives)
    }

    /** An icon at `q` is too close to one at `p`. */
    predicate Crowds(p: Pos, q: Pos) {
      Abs(q.x - p.x) < ClearX() && Abs(q.y - p.y) < ClearY()
    }

    predicate Free(p: Pos, placed: seq<Pos>) {
      !HitsDrives(p) && forall i :: 0 <= i < |placed| ==> !Crowds(p, placed[i])
    }

    /** Where desktop_item_clamp puts an icon whose widget wants `width` by `height`. */
    function ClampPos(p: Pos, width: int, height: int): Pos {
      Pos(Clamp(p.x, MinX(), MaxX(width)), Clamp(p.y, MinY(), MaxY(height)))
    }

    // ----- the grid

    /** The point in column `i` and row `j`. */
    function Cell(i: int, j: int): Pos {
      Pos(MinX() + i * StepX(), MinY() + j * StepY())
    }

    function Columns(): nat { (MaxX(ItemWidth()) - MinX()) / StepX() + 1 }
    function Rows(): nat { (MaxY(ItemHeight()) - MinY()) / StepY() + 1 }

    /** The search of desktop_find_free_position_in_list from a point on, column by column;
        when it runs out the icon goes to the first cell. */
    function Search(placed: seq<Pos>, x: int, y: int): Pos
      decreases Max(0, MaxX(ItemWidth()) + 1 - x), Max(0, MaxY(ItemHeight()) + 1 - y)
    {
      if x > MaxX(ItemWidth()) then Pos(MinX(), MinY())
      else if y > MaxY(ItemHeight()) then Search(placed, x + StepX(), MinY())
      else if Free(Pos(x, y), placed) then Pos(x, y)
      else Search(placed, x, y + StepY())
    }

    function FindFree(placed: seq<Pos>): Pos {
      Search(placed, MinX(), MinY())
    }

    predicate InGrid(c: (int, int)) {
      0 <= c.0 < Columns() && 0 <= c.1 < Rows()
    }

    /** The cells that are clear of the drives. */
    function Cells(): set<(int, int)> {
      set i, j | 0 <= i < Columns() && 0 <= j < Rows() && !HitsDrives(Cell(i, j)) :: (i, j)
    }
  }

  /** One icon as desktop_reflow_items finds it. */
  datatype Icon = Icon(pos: Pos, shown: bool, width: int, height: int)

  /** Where the clamp of a reflow puts the icon. */
  function Clamped(s: Screen, icon: Icon): Pos {
    if icon.shown then s.ClampPos(icon.pos, icon.width, icon.height) else icon.pos
  }

  function Place(s: Screen, icon: Icon, placed: seq<Pos>): Pos {
    var p := Clamped(s, icon);
    if s.Free(p, placed) then p else s.FindFree(placed)
  }

  /** desktop_reflow_items: each icon keeps its place if it is clear of the drives and of the
      icons before it, and looks for another otherwise. */
  function Reflow(s: Screen, icons: seq<Icon>): (r: seq<Pos>)
    ensures |r| == |icons|
  {
    if icons == [] then []
    else
      var placed := Reflow(s, icons[..|icons| - 1]);
      placed + [Place(s, icons[|icons| - 1], placed)]
  }

  // ----- the search

  lemma CellRange(s: Screen, i: int, j: int)
    requires 0 <= i && 0 <= j
    ensures s.Cell(i, j).x <= s.MaxX(s.ItemWidth()) <==> i < s.Columns()
    ensures s.Cell(i, j).y <= s.MaxY(s.ItemHeight()) <==> j < s.Rows()
  {
    Steps(i, s.StepX(), s.MaxX(s.ItemWidth()) - s.MinX());
    Steps(j, s.StepY(), s.MaxY(s.ItemHeight()) - s.MinY());
  }

  lemma Steps(i: int, step: int, room: int)
    requires step > 0
    ensures i * step <= room <==> i <= room / step
  {
    var q, r := room / step, room % step;
    assert room == q * step + r && 0 <= r < step;
    if i <= q { assert i * step <= q * step; } else { assert i * step >= (q + 1) * step; }
  }

  lemma NextCell(s: Screen, i: int, j: int)
    ensures s.Cell(i + 1, j).x == s.Cell(i, j).x + s.StepX() && s.Cell(i, j + 1).y == s.Cell(i, j).y + s.StepY()
  {
  }

  /** A cell at or after (i, j) in the order of the search. */
  predicate NotBefore(i: int, j: int, c: (int, int)) {
    c.0 > i || (c.0 == i && c.1 >= j)
  }

  /** The search stops at a free cell if there is one ahead, and otherwise gives up. */
  lemma {:induction false} SearchFinds(s: Screen, placed: seq<Pos>, i: nat, j: nat)
    requires i <= s.Columns() && j <= s.Rows()
    ensures var r := s.Search(placed, s.Cell(i, j).x, s.Cell(i, j).y);
      if exists c :: s.InGrid(c) && NotBefore(i, j, c) && s.Free(s.Cell(c.0, c.1), placed)
      then s.Free(r, placed) && exists c :: s.InGrid(c) && r == s.Cell(c.0, c.1)
      else r == s.Cell(0, 0)
    decreases s.Columns() - i, s.Rows() - j
  {
    CellRange(s, i, j);
    NextCell(s, i, j);
    if i == s.Columns() {
    } else if j == s.Rows() {
      SearchFinds(s, placed, i + 1, 0);
      assert forall c :: s.InGrid(c) ==> (NotBefore(i, j, c) <==> NotBefore(i + 1, 0, c));
    } else if s.Free(s.Cell(i, j), placed) {
      assert s.InGrid((i, j)) && NotBefore(i, j, (i, j));
    } else {
      SearchFinds(s, placed, i, j + 1);
      assert forall c :: s.InGrid(c) && NotBefore(i, j, c) && c != (i, j) ==> NotBefore(i, j + 1, c);
    }
  }

  /** And it is the first: no free cell that is ahead, column by column, comes before it. */
  lemma {:induction false} SearchFirst(s: Screen, placed: seq<Pos>, i: nat, j: nat, c: (int, int))
    requires i <= s.Columns() && j <= s.Rows()
    requires s.InGrid(c) && NotBefore(i, j, c) && s.Free(s.Cell(c.0, c.1), placed)
    ensures var r := s.Search(placed, s.Cell(i, j).x, s.Cell(i, j).y);
      exists d :: s.InGrid(d) && r == s.Cell(d.0, d.1) && NotBefore(d.0, d.1, c)
    decreases s.Columns() - i, s.Rows() - j
  {
    CellRange(s, i, j);
    NextCell(s, i, j);
    if i == s.Columns() {
    } else if j == s.Rows() {
      SearchFirst(s, placed, i + 1, 0, c);
    } else if s.Free(s.Cell(i, j), placed) {
      assert s.InGrid((i, j)) && NotBefore(i, j, c);
    } else {
      SearchFirst(s, placed, i, j + 1, c);
    }
  }

  /** A place is found exactly when some cell is free; it is then a free cell of the grid. */
  lemma FindFreeFinds(s: Screen, placed: seq<Pos>)
    ensures var r := s.FindFree(placed);
      if exists c :: s.InGrid(c) && s.Free(s.Cell(c.0, c.1), placed)
      then s.Free(r, placed) && exists c :: s.InGrid(c) && r == s.Cell(c.0, c.1)
      else r == s.Cell(0, 0)
  {
    SearchFinds(s, placed, 0, 0);
    assert forall c :: s.InGrid(c) ==> NotBefore(0, 0, c);
  }
}
