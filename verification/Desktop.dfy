/** The icons of desktop.c: the placement procedures on the icons themselves, and what a
    reflow guarantees. */
module Desktop {
  import opened Basics
  import opened DesktopGrid

  // ----- one placed icon blocks at most four cells

  function BlockedCells(s: Screen, q: Pos): set<(int, int)> {
    set c | c in s.Cells() && s.Crowds(s.Cell(c.0, c.1), q)
  }

  /** Two multiples of a pitch that both come within less than the pitch of a point are equal
      or neighbours. */
  lemma Neighbours(i: int, k: int, step: int, near: int, origin: int, x: int)
    requires 0 < near < step
    requires Abs(x - (origin + i * step)) < near && Abs(x - (origin + k * step)) < near
    ensures -1 <= i - k <= 1
  {
    if i >= k + 2 { TwoApart(i, k, step); }
    if k >= i + 2 { TwoApart(k, i, step); }
  }

  lemma TwoApart(i: int, k: int, step: int)
    requires i >= k + 2 && step > 0
    ensures i * step >= k * step + 2 * step
  {
    var more := i - k - 2;
    assert i * step == (k + 2 + more) * step == k * step + 2 * step + more * step;
  }

  lemma BlockedNeighbours(s: Screen, q: Pos, c: (int, int), d: (int, int))
    requires c in BlockedCells(s, q) && d in BlockedCells(s, q)
    ensures -1 <= c.0 - d.0 <= 1 && -1 <= c.1 - d.1 <= 1
  {
    Neighbours(c.0, d.0, s.StepX(), s.ClearX(), s.MinX(), q.x);
    Neighbours(c.1, d.1, s.StepY(), s.ClearY(), s.MinY(), q.y);
  }

  lemma BlocksFour(s: Screen, q: Pos)
    ensures |BlockedCells(s, q)| <= 4
  {
    hide BlockedCells;
    var b := BlockedCells(s, q);
    if c :| c in b {
      var i := if exists d :: d in b && d.0 == c.0 - 1 then c.0 - 1 else c.0;
      var j := if exists d :: d in b && d.1 == c.1 - 1 then c.1 - 1 else c.1;
      var four := {(i, j), (i, j + 1), (i + 1, j), (i + 1, j + 1)};
      forall d | d in b ensures d in four {
        BlockedNeighbours(s, q, c, d);
        NoneBefore(s, q, c, d);
        assert (d.0 == i || d.0 == i + 1) && (d.1 == j || d.1 == j + 1);
        assert d == (i, j) || d == (i, j + 1) || d == (i + 1, j) || d == (i + 1, j + 1);
      }
      SubsetSize(b, four);
      FourAtMost((i, j), (i, j + 1), (i + 1, j), (i + 1, j + 1));
    }
  }

  /** Of two blocked columns or rows that are neighbours, neither has another beyond. */
  lemma NoneBefore(s: Screen, q: Pos, c: (int, int), d: (int, int))
    requires c in BlockedCells(s, q) && d in BlockedCells(s, q)
    ensures (exists e :: e in BlockedCells(s, q) && e.0 == c.0 - 1) ==> d.0 <= c.0
    ensures (exists e :: e in BlockedCells(s, q) && e.1 == c.1 - 1) ==> d.1 <= c.1
  {
    hide BlockedCells;
    var b := BlockedCells(s, q);
    if e :| e in b && e.0 == c.0 - 1 { BlockedNeighbours(s, q, d, e); }
    if e :| e in b && e.1 == c.1 - 1 { BlockedNeighbours(s, q, d, e); }
  }

  lemma FourAtMost<T>(a: T, b: T, c: T, d: T)
    ensures |{a, b, c, d}| <= 4
  {
  }

  function BlockedByAll(s: Screen, placed: seq<Pos>): set<(int, int)> {
    set c | c in s.Cells() && exists i :: 0 <= i < |placed| && s.Crowds(s.Cell(c.0, c.1), placed[i])
  }

  lemma {:induction false} BlocksFourEach(s: Screen, placed: seq<Pos>)
    ensures |BlockedByAll(s, placed)| <= 4 * |placed|
  {
    hide BlockedCells;
    if placed == [] {
      assert BlockedByAll(s, placed) == {};
    } else {
      var rest, last := placed[..|placed| - 1], placed[|placed| - 1];
      BlocksFourEach(s, rest);
      BlocksFour(s, last);
      BlockedSplit(s, placed);
      UnionSize(BlockedByAll(s, rest), BlockedCells(s, last), BlockedByAll(s, placed));
    }
  }

  lemma BlockedSplit(s: Screen, placed: seq<Pos>)
    requires placed != []
    ensures BlockedByAll(s, placed) <=
              BlockedByAll(s, placed[..|placed| - 1]) + BlockedCells(s, placed[|placed| - 1])
  {
  }

  lemma UnionSize<T>(a: set<T>, b: set<T>, c: set<T>)
    requires c <= a + b
    ensures |c| <= |a| + |b|
  {
    SubsetSize(c, a + b);
    assert |a + b| == |a| + |b| - |a * b|;
  }

  /** With more than four drive-free cells for each icon already placed, a place is found. */
  lemma RoomMeansFree(s: Screen, placed: seq<Pos>)
    requires |s.Cells()| > 4 * |placed|
    ensures s.Free(s.FindFree(placed), placed)
  {
    BlocksFourEach(s, placed);
    var blocked := BlockedByAll(s, placed);
    if s.Cells() <= blocked { SubsetSize(s.Cells(), blocked); }
    var c :| c in s.Cells() && c !in blocked;
    assert s.InGrid(c) && s.Free(s.Cell(c.0, c.1), placed);
    FindFreeFinds(s, placed);
  }

  // ----- what a reflow guarantees

  lemma {:induction false} ReflowPrefix(s: Screen, icons: seq<Icon>, i: nat)
    requires i < |icons|
    ensures Reflow(s, icons)[..i] == Reflow(s, icons[..i])
    ensures Reflow(s, icons)[i] == Place(s, icons[i], Reflow(s, icons[..i]))
  {
    var n := |icons| - 1;
    if i < n {
      ReflowPrefix(s, icons[..n], i);
      assert icons[..n][..i] == icons[..i] && icons[..n][i] == icons[i];
      assert Reflow(s, icons)[..i] == Reflow(s, icons[..n])[..i];
    }
  }

  predicate NoCell(s: Screen, placed: seq<Pos>) {
    forall i, j :: 0 <= i < s.Columns() && 0 <= j < s.Rows() ==> !s.Free(s.Cell(i, j), placed)
  }

  /** After a reflow each icon is clear of the drives and of all earlier icons, unless every
      cell of the grid was taken; then it is on the first cell. */
  lemma ReflowClear(s: Screen, icons: seq<Icon>, i: nat)
    requires i < |icons|
    ensures var r := Reflow(s, icons);
      s.Free(r[i], r[..i]) || (NoCell(s, r[..i]) && r[i] == s.Cell(0, 0))
  {
    ReflowPrefix(s, icons, i);
    var placed := Reflow(s, icons[..i]);
    FindFreeFinds(s, placed);
    if !s.Free(Place(s, icons[i], placed), placed) {
      forall a, b | 0 <= a < s.Columns() && 0 <= b < s.Rows() ensures !s.Free(s.Cell(a, b), placed) {
        assert s.InGrid((a, b));
      }
    }
  }

  predicate Separated(s: Screen, ps: seq<Pos>) {
    forall i, k :: 0 <= i < k < |ps| ==> !s.Crowds(ps[k], ps[i])
  }

  /** With more than 4(n - 1) drive-free cells for n icons nobody falls back on the first
      cell: all icons are clear of the drives and of each other. */
  lemma ReflowSeparates(s: Screen, icons: seq<Icon>)
    requires icons != [] ==> |s.Cells()| > 4 * (|icons| - 1)
    ensures Separated(s, Reflow(s, icons))
    ensures forall i :: 0 <= i < |icons| ==> !s.HitsDrives(Reflow(s, icons)[i])
  {
    var r := Reflow(s, icons);
    forall k | 0 <= k < |r|
      ensures s.Free(r[k], r[..k])
    {
      ReflowPrefix(s, icons, k);
      RoomMeansFree(s, r[..k]);
    }
    forall i, k | 0 <= i < k < |r| ensures !s.Crowds(r[k], r[i]) {
      assert r[..k][i] == r[i];
    }
  }

  function At(icons: seq<Icon>, ps: seq<Pos>): (r: seq<Icon>)
    requires |icons| == |ps|
    ensures |r| == |icons|
  {
    seq(|icons|, i requires 0 <= i < |icons| => icons[i].(pos := ps[i]))
  }

  /** An icon that a reflow finds in its place beside `placed` is left there. */
  predicate Settled(s: Screen, icon: Icon, placed: seq<Pos>) {
    Clamped(s, icon) == icon.pos || (!s.Free(Clamped(s, icon), placed) && s.FindFree(placed) == icon.pos)
  }

  /** Placing an icon again leaves it where it is if and only if the clamp does, or what the
      clamp proposes is not free and the search comes back to the same place. */
  lemma PlaceAgainIff(s: Screen, icon: Icon, placed: seq<Pos>)
    ensures var p := Place(s, icon, placed);
      Place(s, icon.(pos := p), placed) == p <==> Settled(s, icon.(pos := p), placed)
  {
    if Clamped(s, icon.(pos := Place(s, icon, placed))) == Place(s, icon, placed) {
      FindFreeFinds(s, placed);
    }
  }

  /** A second reflow moves nothing if and only if each icon is settled where the first has put
      it. */
  lemma {:induction false} ReflowTwiceIff(s: Screen, icons: seq<Icon>)
    ensures var r := Reflow(s, icons);
      Reflow(s, At(icons, r)) == r <==> forall i :: 0 <= i < |r| ==> Settled(s, icons[i].(pos := r[i]), r[..i])
  {
    if icons != [] {
      hide Settled, Place;
      var n := |icons| - 1;
      var r := Reflow(s, icons);
      ReflowTwiceIff(s, icons[..n]);
      assert At(icons, r)[..n] == At(icons[..n], r[..n]);
      assert forall i :: 0 <= i < n ==> r[..n][..i] == r[..i];
      PlaceAgainIff(s, icons[n], r[..n]);
      var again := Reflow(s, At(icons, r));
      assert again[..n] == Reflow(s, At(icons[..n], r[..n]));
      assert again == r <==> again[..n] == r[..n] && again[n] == r[n];
    }
  }

  /** The clamp leaves a widget of this size on every cell that is clear of the drives. */
  ghost predicate FitsCells(s: Screen, width: int, height: int) {
    forall c :: s.InGrid(c) && !s.HitsDrives(s.Cell(c.0, c.1)) ==>
      s.ClampPos(s.Cell(c.0, c.1), width, height) == s.Cell(c.0, c.1)
  }

  /** So it is for every size up to the nominal one. */
  lemma NominalFits(s: Screen, width: int, height: int)
    requires width <= s.ItemWidth() && height <= s.ItemHeight()
    ensures FitsCells(s, width, height)
  {
    forall c | s.InGrid(c) ensures s.ClampPos(s.Cell(c.0, c.1), width, height) == s.Cell(c.0, c.1) {
      CellRange(s, c.0, c.1);
    }
  }

  /** When every widget that is shown fits the cells, a second reflow moves nothing. */
  lemma ReflowTwice(s: Screen, icons: seq<Icon>)
    requires forall i :: 0 <= i < |icons| && icons[i].shown ==> FitsCells(s, icons[i].width, icons[i].height)
    ensures Reflow(s, At(icons, Reflow(s, icons))) == Reflow(s, icons)
  {
    var r := Reflow(s, icons);
    forall i | 0 <= i < |r| ensures Settled(s, icons[i].(pos := r[i]), r[..i]) {
      ReflowPrefix(s, icons, i);
      FindFreeFinds(s, r[..i]);
    }
    ReflowTwiceIff(s, icons);
  }

  /** Some such condition is needed: on this screen a widget that wants 118 pixels is sent to
      the grid cell (112, 12), and the next reflow finds it a place further left. */
  lemma WideIconMoves()
    ensures var s := Screen(Rect(0, 0, 240, 112), Rect(0, 0, 240, 112), 48, Rect(0, 0, 0, 0));
      var icons := [Icon(Pos(12, 12), true, 96, 78), Icon(Pos(12, 12), true, 118, 78)];
      Reflow(s, icons) == [Pos(12, 12), Pos(112, 12)]
      && Reflow(s, At(icons, Reflow(s, icons))) == [Pos(12, 12), Pos(110, 12)]
  {
    var s := Screen(Rect(0, 0, 240, 112), Rect(0, 0, 240, 112), 48, Rect(0, 0, 0, 0));
    var a, b := Icon(Pos(12, 12), true, 96, 78), Icon(Pos(12, 12), true, 118, 78);
    var placed := [Pos(12, 12)];
    assert Place(s, a, []) == Pos(12, 12) && [a][..0] == [];
    assert Reflow(s, [a]) == placed && [a, b][..1] == [a];
    assert s.Crowds(Pos(12, 12), placed[0]) && s.Search(placed, 12, 112) == s.Search(placed, 112, 12);
    assert s.FindFree(placed) == s.Search(placed, 12, 112);
    assert s.Search(placed, 112, 12) == Pos(112, 12);
    assert Place(s, b, placed) == Pos(112, 12);
    var b' := b.(pos := Pos(112, 12));
    assert s.ClampPos(Pos(112, 12), 118, 78) == Pos(110, 12) && s.Free(Pos(110, 12), placed);
    assert Place(s, b', placed) == Pos(110, 12);
    assert At([a, b], [Pos(12, 12), Pos(112, 12)]) == [a, b'] && [a, b'][..1] == [a];
  }

  // ----- the icons

  class DesktopItem {
    var x: int
    var y: int
    const shown: bool   // has a widget
    const width: int    // what the widget would like
    const height: int

    constructor (x: int, y: int, shown: bool, width: int, height: int)
      ensures this.x == x && this.y == y && this.shown == shown && this.width == width && this.height == height
    {
      this.x, this.y, this.shown, this.width, this.height := x, y, shown, width, height;
    }

    ghost function Now(): Icon
      reads this
    {
      Icon(Pos(x, y), shown, width, height)
    }

    /** desktop_item_clamp */
    method ClampTo(s: Screen)
      modifies this
      ensures Pos(x, y) == if shown then s.ClampPos(old(Pos(x, y)), width, height) else old(Pos(x, y))
    {
      if !shown { return; }
      x := Clamp(x, s.MinX(), s.MaxX(width));
      y := Clamp(y, s.MinY(), s.MaxY(height));
    }

    /** desktop_find_free_position_in_list; `placed` may contain this icon, which is ignored. */
    method FindFreePosition(s: Screen, placed: seq<DesktopItem>)
      modifies this
      ensures Pos(x, y) == s.FindFree(old(Others(placed, this)))
    {
      ghost var others := Others(placed, this);
      var px := s.MinX();
      while px <= s.MaxX(s.ItemWidth())
        invariant s.Search(others, px, s.MinY()) == s.FindFree(others)
        invariant x == old(x) && y == old(y) && Others(placed, this) == others
        decreases s.MaxX(s.ItemWidth()) - px
      {
        var py := s.MinY();
        while py <= s.MaxY(s.ItemHeight())
          invariant s.Search(others, px, py) == s.FindFree(others)
          invariant x == old(x) && y == old(y) && Others(placed, this) == others
          decreases s.MaxY(s.ItemHeight()) - py
        {
          var taken := Occupied(s, px, py, this, placed);
          if !taken {
            x, y := px, py;
            return;
          }
          py := py + s.StepY();
        }
        px := px + s.StepX();
      }
      x, y := s.MinX(), s.MinY();
    }

    /** One round of desktop_reflow_items. */
    method Settle(s: Screen, placed: seq<DesktopItem>)
      requires this !in placed
      modifies this
      ensures Pos(x, y) == Place(s, old(Now()), old(Positions(placed)))
      ensures Positions(placed) == old(Positions(placed))
    {
      OthersAll(placed, this);
      ClampTo(s);
      OthersAll(placed, this);
      assert Positions(placed) == old(Positions(placed));
      var taken := Occupied(s, x, y, this, placed);
      if taken { FindFreePosition(s, placed); }
    }
  }

  /** The positions of the items of a list other than `ignore`. */
  ghost function Others(items: seq<DesktopItem>, ignore: DesktopItem): seq<Pos>
    reads items
  {
    if items == [] then []
    else Others(items[..|items| - 1], ignore)
         + if items[|items| - 1] == ignore then [] else [Pos(items[|items| - 1].x, items[|items| - 1].y)]
  }

  /** desktop_position_occupied_in_list */
  method Occupied(s: Screen, x: int, y: int, ignore: DesktopItem, items: seq<DesktopItem>) returns (r: bool)
    ensures r == !s.Free(Pos(x, y), Others(items, ignore))
  {
    if s.HitsDrives(Pos(x, y)) { return true; }
    for i := 0 to |items|
      invariant s.Free(Pos(x, y), Others(items[..i], ignore))
    {
      assert items[..i + 1][..i] == items[..i];
      if items[i] == ignore { continue; }
      if Abs(items[i].x - x) < s.ClearX() && Abs(items[i].y - y) < s.ClearY() {
        assert Others(items[..i + 1], ignore)[|Others(items[..i], ignore)|] == Pos(items[i].x, items[i].y);
        StillCrowded(s, Pos(x, y), items, ignore, i + 1);
        return true;
      }
    }
    assert items[..|items|] == items;
    return false;
  }

  lemma {:induction false} StillCrowded(s: Screen, p: Pos, items: seq<DesktopItem>, ignore: DesktopItem, i: nat)
    requires i <= |items| && !s.Free(p, Others(items[..i], ignore))
    ensures !s.Free(p, Others(items, ignore))
    decreases |items| - i
  {
    if i == |items| {
      assert items[..i] == items;
    } else {
      assert items[..i + 1][..i] == items[..i];
      assert Others(items[..i], ignore) <= Others(items[..i + 1], ignore);
      StillCrowded(s, p, items, ignore, i + 1);
    }
  }

  ghost function Icons(items: seq<DesktopItem>): (r: seq<Icon>)
    reads items
    ensures |r| == |items|
  {
    seq(|items|, i requires 0 <= i < |items| reads items => items[i].Now())
  }

  ghost function Positions(items: seq<DesktopItem>): (r: seq<Pos>)
    reads items
    ensures |r| == |items|
  {
    seq(|items|, i requires 0 <= i < |items| reads items => Pos(items[i].x, items[i].y))
  }

  lemma {:induction false} OthersAll(items: seq<DesktopItem>, ignore: DesktopItem)
    requires ignore !in items
    ensures Others(items, ignore) == Positions(items)
  {
    if items != [] {
      var n := |items| - 1;
      OthersAll(items[..n], ignore);
      assert Positions(items) == Positions(items[..n]) + [Pos(items[n].x, items[n].y)];
    }
  }

  /** desktop_reflow_items */
  method ReflowItems(s: Screen, items: seq<DesktopItem>)
    requires forall i, k :: 0 <= i < k < |items| ==> items[i] != items[k]
    modifies items
    ensures Positions(items) == Reflow(s, old(Icons(items)))
  {
    ghost var icons := Icons(items);
    var placed: seq<DesktopItem> := [];
    for n := 0 to |items|
      invariant placed == items[..n]
      invariant Positions(items[..n]) == Reflow(s, icons[..n])
      invariant forall i :: n <= i < |items| ==> items[i].Now() == icons[i]
    {
      var item := items[n];
      item.Settle(s, placed);
      placed := placed + [item];
      assert icons[..n + 1][..n] == icons[..n] && items[..n + 1][..n] == items[..n];
      assert Positions(items[..n + 1]) == Positions(items[..n]) + [Pos(item.x, item.y)];
    }
    assert items[..|items|] == items && icons[..|items|] == icons;
  }
}
