/** Where the icons of desktop.c end up on the screen, in pixels: what the predicates and bounds
    of `DesktopGrid` mean. */
module DesktopPixels {
  import opened Basics
  import opened DesktopGrid
  import opened Desktop

  /** The pixel (x, y) lies in the rectangle at `p`. */
  ghost predicate Covers(p: Pos, width: int, height: int, x: int, y: int) {
    p.x <= x < p.x + width && p.y <= y < p.y + height
  }

  /** The larger of a fixed size and one that depends on the icons. */
  function Larger(a: int, b: int): (r: int)
    ensures r >= a && r >= b && (r == a || r == b)
  {
    if a >= b then a else b
  }

  /** The pixel belongs both to the nominal rectangle of an icon at `p` and to the place kept for
      the drives. */
  ghost predicate Shared(s: Screen, p: Pos, x: int, y: int) {
    && Covers(p, Larger(96, s.iconSize + 48), Larger(78, s.iconSize + 46), x, y)
    && Covers(Pos(s.drives.x, s.drives.y), s.drives.width, s.drives.height, x, y)
  }

  /** Clear of the drives is to share no pixel with them. */
  lemma HitsIff(s: Screen, p: Pos)
    ensures s.HitsDrives(p) <==> exists x, y :: Shared(s, p, x, y)
  {
    if s.HitsDrives(p) {
      assert Shared(s, p, Larger(p.x, s.drives.x), Larger(p.y, s.drives.y));
    }
  }

  /** Two icons are far enough from each other in one direction. */
  predicate FarApart(s: Screen, p: Pos, q: Pos) {
    var across, down := Larger(92, s.iconSize + 48), Larger(82, s.iconSize + 48);
    p.x + across <= q.x || q.x + across <= p.x || p.y + down <= q.y || q.y + down <= p.y
  }

  lemma CrowdsIff(s: Screen, p: Pos, q: Pos)
    ensures s.Crowds(p, q) <==> !FarApart(s, p, q)
  {
  }

  /** No pixel of the icon is kept for the drives, and it is far from all that are placed. */
  ghost predicate ClearAt(s: Screen, p: Pos, placed: seq<Pos>) {
    (forall x, y :: !Shared(s, p, x, y)) && forall i :: 0 <= i < |placed| ==> FarApart(s, p, placed[i])
  }

  lemma FreeIff(s: Screen, p: Pos, placed: seq<Pos>)
    ensures s.Free(p, placed) <==> ClearAt(s, p, placed)
  {
    HitsIff(s, p);
    hide Shared, FarApart;
    forall i | 0 <= i < |placed| ensures s.Crowds(p, placed[i]) <==> !FarApart(s, p, placed[i]) {
      CrowdsIff(s, p, placed[i]);
    }
  }

  // ----- the bounds

  /** The left and upper edge of the work area, as seen from the monitor. */
  function Edge(area: int, monitor: int): int {
    if area > monitor then area - monitor else 0
  }

  /** A width or height of `size` at `at` keeps the margin of 12 pixels on both sides of an area
      of `room` from `edge` on; one that is too large for that begins at the margin. */
  predicate Inside(at: int, size: int, edge: int, room: int) {
    edge + 12 <= at && (size + 24 <= room ==> at + size + 12 <= edge + room) && (size + 24 > room ==> at == edge + 12)
  }

  ghost predicate OnScreen(s: Screen, p: Pos, width: int, height: int) {
    && Inside(p.x, width, Edge(s.workarea.x, s.geometry.x), s.workarea.width)
    && Inside(p.y, height, Edge(s.workarea.y, s.geometry.y), s.workarea.height)
  }

  /** The clamp puts an icon on the screen and moves it only if it has to, and no further. */
  lemma ClampInside(s: Screen, p: Pos, width: int, height: int)
    ensures var q := s.ClampPos(p, width, height);
      && OnScreen(s, q, width, height)
      && (OnScreen(s, p, width, height) ==> q == p)
      && forall r: Pos :: OnScreen(s, r, width, height) ==>
           Abs(q.x - p.x) <= Abs(r.x - p.x) && Abs(q.y - p.y) <= Abs(r.y - p.y)
  {
  }

  /** Every cell of the grid is on the screen, for icons of the nominal size. */
  lemma CellInside(s: Screen, i: nat, j: nat)
    requires i < s.Columns() && j < s.Rows()
    ensures OnScreen(s, s.Cell(i, j), Larger(96, s.iconSize + 48), Larger(78, s.iconSize + 46))
  {
    CellRange(s, i, j);
    Multiple(i, s.StepX());
    Multiple(j, s.StepY());
  }

  lemma Multiple(i: nat, step: nat)
    ensures i * step >= 0
  {
  }

  /** Icons on different cells are far enough from each other. */
  lemma CellsApart(s: Screen, c: (nat, nat), d: (nat, nat))
    requires c != d
    ensures FarApart(s, s.Cell(c.0, c.1), s.Cell(d.0, d.1))
  {
    Apart(c.0, d.0, s.StepX());
    Apart(c.1, d.1, s.StepY());
  }

  lemma Apart(i: nat, k: nat, step: nat)
    ensures i < k ==> i * step + step <= k * step
    ensures k < i ==> k * step + step <= i * step
  {
    if i < k { Multiple(k - i - 1, step); }
    if k < i { Multiple(i - k - 1, step); }
  }

  // ----- a reflow

  /** After a reflow each icon is clear, unless every cell of the grid was taken and it is on the
      first one; one that was clear where the clamp puts it has stayed there; and each is on the
      screen, at the size it wants there or at the nominal one. */
  lemma ReflowPixels(s: Screen, icons: seq<Icon>, i: nat)
    requires i < |icons|
    ensures var r := Reflow(s, icons);
      && (ClearAt(s, r[i], r[..i]) || (r[i] == s.Cell(0, 0) && AllTaken(s, r[..i])))
      && (ClearAt(s, Clamped(s, icons[i]), r[..i]) ==> r[i] == Clamped(s, icons[i]))
      && (icons[i].shown && r[i] == Clamped(s, icons[i]) ==> OnScreen(s, r[i], icons[i].width, icons[i].height))
      && (r[i] == Clamped(s, icons[i]) ||
            OnScreen(s, r[i], Larger(96, s.iconSize + 48), Larger(78, s.iconSize + 46)))
  {
    hide OnScreen, ClearAt;
    var r := Reflow(s, icons);
    var p := Clamped(s, icons[i]);
    ReflowPrefix(s, icons, i);
    ReflowClear(s, icons, i);
    FreeIff(s, r[i], r[..i]);
    FreeIff(s, p, r[..i]);
    if NoCell(s, r[..i]) { TakenIff(s, r[..i]); }
    ClampInside(s, icons[i].pos, icons[i].width, icons[i].height);
    if r[i] != p {
      FindFreeFinds(s, r[..i]);
      FirstCell(s);
      if c :| s.InGrid(c) && r[i] == s.Cell(c.0, c.1) { CellInside(s, c.0, c.1); }
    }
  }

  lemma FirstCell(s: Screen)
    ensures OnScreen(s, s.Cell(0, 0), Larger(96, s.iconSize + 48), Larger(78, s.iconSize + 46))
  {
    CellRange(s, 0, 0);
    CellInside(s, 0, 0);
  }

  ghost predicate AllTaken(s: Screen, placed: seq<Pos>) {
    forall i, j :: 0 <= i < s.Columns() && 0 <= j < s.Rows() ==> !ClearAt(s, s.Cell(i, j), placed)
  }

  lemma TakenIff(s: Screen, placed: seq<Pos>)
    ensures NoCell(s, placed) <==> AllTaken(s, placed)
  {
    hide ClearAt;
    forall p ensures s.Free(p, placed) <==> ClearAt(s, p, placed) {
      FreeIff(s, p, placed);
    }
  }
}
