/** The contents of a collection widget (collection.c) as a sequence, and its two layouts. */
module CollectionSpec {

  datatype Item = Item(data: int, view: int, selected: bool)

  datatype Signal = GainSelection | LoseSelection | SelectionChanged

  datatype SelectionOp = Set | Invert

  /** What a watcher thinks that sets a flag on gain_selection and clears it on
      lose_selection. */
  function Flag(signals: seq<Signal>): bool {
    if signals == [] then false
    else match signals[|signals| - 1]
      case GainSelection => true
      case LoseSelection => false
      case SelectionChanged => Flag(signals[..|signals| - 1])
  }

  /** What is announced when the number of selected items becomes or stops being zero. */
  function Crossed(was: nat, now: nat): seq<Signal> {
    if was == 0 && now > 0 then [GainSelection]
    else if was > 0 && now == 0 then [LoseSelection]
    else []
  }

  /** What EMIT_SELECTION_CHANGED announces while `blocked` callers hold it back. */
  function Changed(blocked: nat): seq<Signal> {
    if blocked == 0 then [SelectionChanged] else []
  }

  /** What collection_clear_except announces, given whether `item` was selected before and how
      many were. */
  function ClearSignals(item: int, was: bool, selected: nat, blocked: nat): seq<Signal> {
    if item == -1 then if selected == 0 then [] else [LoseSelection] + Changed(blocked)
    else (if was then [] else Crossed(selected, selected + 1) + Changed(blocked)) + Changed(blocked)
  }

  function Selected(s: seq<Item>): nat {
    if s == [] then 0
    else Selected(s[..|s| - 1]) + if s[|s| - 1].selected then 1 else 0
  }

  /** All items, with the same selection state. */
  function AllMarked(s: seq<Item>, selected: bool): (r: seq<Item>)
    ensures |r| == |s|
  {
    seq(|s|, i requires 0 <= i < |s| => s[i].(selected := selected))
  }

  /** All items, `item` selected and the others not. */
  function OnlyMarked(s: seq<Item>, item: int): (r: seq<Item>)
    ensures |r| == |s|
  {
    seq(|s|, i requires 0 <= i < |s| => s[i].(selected := i == item))
  }

  function Inverted(s: seq<Item>): (r: seq<Item>)
    ensures |r| == |s|
  {
    seq(|s|, i requires 0 <= i < |s| => s[i].(selected := !s[i].selected))
  }

  /** Marking and inverting change the selection and nothing else. */
  lemma MarkingKeeps(s: seq<Item>, selected: bool, item: int, i: nat)
    requires i < |s|
    ensures var all, only, not := AllMarked(s, selected)[i], OnlyMarked(s, item)[i], Inverted(s)[i];
      && all.data == only.data == not.data == s[i].data && all.view == only.view == not.view == s[i].view
      && all.selected == selected && (only.selected <==> i == item) && not.selected != s[i].selected
  {
  }

  /** A change of the selection is announced unless that is held back; that the selection has
      appeared or disappeared is announced exactly when it has, held back or not. */
  lemma ClearAnnounced(item: int, was: bool, selected: nat, blocked: nat)
    requires was ==> item != -1 && selected > 0
    ensures var signals := ClearSignals(item, was, selected, blocked);
      && (blocked == 0 && (if item == -1 then selected > 0 else !was || selected > 1) ==> SelectionChanged in signals)
      && (SelectionChanged in signals ==> blocked == 0)
      && (LoseSelection in signals <==> item == -1 && selected > 0)
      && (GainSelection in signals <==> item != -1 && selected == 0)
  {
  }

  // ----- counting

  lemma {:induction false} SelectedAt(s: seq<Item>, i: nat, selected: bool)
    requires i < |s|
    ensures Selected(s[i := s[i].(selected := selected)])
      == Selected(s) + (if selected then 1 else 0) - (if s[i].selected then 1 else 0)
  {
    var n := |s| - 1;
    var t := s[i := s[i].(selected := selected)];
    if i == n {
      assert t[..n] == s[..n];
    } else {
      assert t[..n] == s[..n][i := s[i].(selected := selected)];
      SelectedAt(s[..n], i, selected);
    }
  }

  lemma {:induction false} SelectedBounds(s: seq<Item>)
    ensures Selected(s) <= |s|
    ensures Selected(s) == |s| <==> forall i :: 0 <= i < |s| ==> s[i].selected
    ensures Selected(s) == 0 <==> forall i :: 0 <= i < |s| ==> !s[i].selected
  {
    if s != [] {
      var n := |s| - 1;
      SelectedBounds(s[..n]);
      assert forall i :: 0 <= i < n ==> s[i] == s[..n][i];
    }
  }

  /** At most one item is selected when only `item` may be. */
  lemma {:induction false} SelectedOnly(s: seq<Item>, item: int)
    requires forall i :: 0 <= i < |s| && i != item ==> !s[i].selected
    ensures Selected(s) == if 0 <= item < |s| && s[item].selected then 1 else 0
  {
    if s != [] {
      var n := |s| - 1;
      SelectedOnly(s[..n], item);
    }
  }

  lemma {:induction false} SelectedInverted(s: seq<Item>, t: seq<Item>)
    requires |t| == |s| && forall i :: 0 <= i < |s| ==> t[i].selected == !s[i].selected
    ensures Selected(t) == |s| - Selected(s)
  {
    if s != [] {
      SelectedInverted(s[..|s| - 1], t[..|s| - 1]);
    }
  }

  // ----- collection_delete_if

  function Kept(s: seq<Item>, remove: int -> bool): (r: seq<Item>)
    ensures |r| <= |s|
  {
    if s == [] then []
    else Kept(s[..|s| - 1], remove) + if remove(s[|s| - 1].data) then [] else [s[|s| - 1]]
  }

  /** Where the cursor goes: past the kept items at or before it, and back one. */
  function CursorAfter(s: seq<Item>, remove: int -> bool, cursor: int): (c: int)
    requires -1 <= cursor < |s|
    ensures -1 <= c
  {
    |Kept(s[..cursor + 1], remove)| - 1
  }

  lemma {:induction false} KeptPrefix(s: seq<Item>, remove: int -> bool, i: nat)
    requires i <= |s|
    ensures Kept(s[..i], remove) <= Kept(s, remove)
    decreases |s|
  {
    if i < |s| {
      var n := |s| - 1;
      assert s[..n][..i] == s[..i];
      KeptPrefix(s[..n], remove, i);
    } else {
      assert s[..i] == s;
    }
  }

  lemma {:induction false} KeptNone(s: seq<Item>, remove: int -> bool, i: nat, k: nat)
    requires i <= k <= |s| && forall j :: i <= j < k ==> remove(s[j].data)
    ensures Kept(s[..k], remove) == Kept(s[..i], remove)
    decreases k - i
  {
    if i < k {
      assert s[..k][..k - 1] == s[..k - 1];
      KeptNone(s, remove, i, k - 1);
    }
  }

  /** The cursor lands on the same item if that is kept, else on the nearest kept item before
      it, else it disappears. */
  lemma CursorLands(s: seq<Item>, remove: int -> bool, cursor: int)
    requires -1 <= cursor < |s|
    ensures var c := CursorAfter(s, remove, cursor); var r := Kept(s, remove);
      if forall j :: 0 <= j <= cursor ==> remove(s[j].data) then c == -1
      else exists i :: 0 <= i <= cursor && !remove(s[i].data)
             && (forall j :: i < j <= cursor ==> remove(s[j].data))
             && 0 <= c < |r| && r[c] == s[i] && r[..c] == Kept(s[..i], remove)
  {
    if forall j :: 0 <= j <= cursor ==> remove(s[j].data) {
      KeptNone(s, remove, 0, cursor + 1);
    } else {
      var i := LastKept(s, remove, cursor);
      CursorLandsOn(s, remove, cursor, i);
    }
  }

  lemma CursorLandsOn(s: seq<Item>, remove: int -> bool, cursor: int, i: int)
    requires 0 <= i <= cursor < |s| && !remove(s[i].data) && forall j :: i < j <= cursor ==> remove(s[j].data)
    ensures var c := CursorAfter(s, remove, cursor); var r := Kept(s, remove);
      0 <= c < |r| && r[c] == s[i] && r[..c] == Kept(s[..i], remove)
  {
    KeptNone(s, remove, i + 1, cursor + 1);
    KeptPrefix(s, remove, i + 1);
    assert s[..i + 1][..i] == s[..i];
    assert Kept(s[..i + 1], remove) == Kept(s[..i], remove) + [s[i]];
  }

  lemma {:induction false} LastKept(s: seq<Item>, remove: int -> bool, cursor: int) returns (i: int)
    requires -1 <= cursor < |s| && exists j :: 0 <= j <= cursor && !remove(s[j].data)
    ensures 0 <= i <= cursor && !remove(s[i].data) && forall j :: i < j <= cursor ==> remove(s[j].data)
    decreases cursor
  {
    if !remove(s[cursor].data) { i := cursor; } else { i := LastKept(s, remove, cursor - 1); }
  }

  /** The filter is stable: it keeps exactly the items that are not removed, in order. */
  lemma {:induction false} KeptAll(s: seq<Item>, remove: int -> bool)
    ensures multiset(Kept(s, remove)) <= multiset(s)
    ensures forall x :: x in Kept(s, remove) <==> x in s && !remove(x.data)
  {
    if s != [] {
      KeptAll(s[..|s| - 1], remove);
      assert s == s[..|s| - 1] + [s[|s| - 1]];
    }
  }

  // ----- the layouts

  datatype Layout = Layout(items: nat, columns: nat, vertical: bool)
  {
    predicate Ok() { columns > 0 }

    /** collection_get_rows */
    function Rows(): (r: nat)
      requires Ok()
      ensures r >= 1
    {
      if (items + columns - 1) / columns > 1 then (items + columns - 1) / columns else 1
    }

    /** collection_item_to_rowcol */
    function ToRowCol(item: nat): (nat, nat)
      requires Ok()
    {
      var per := if vertical then Rows() else columns;
      var line, place := item / per, item % per;
      if vertical then (place, line) else (line, place)
    }

    /** collection_rowcol_to_item */
    function ToItem(row: nat, col: nat): nat
      requires Ok()
    {
      if !vertical then row * columns + col
      else if row >= Rows() then items
      else row + col * Rows()
    }
  }

  lemma DivMod(a: nat, b: nat, q: nat, r: nat)
    requires b > 0 && a == q * b + r && r < b
    ensures a / b == q && a % b == r
  {
    if a / b > q {
      Multiples(a / b, q + 1, b);
    } else if a / b < q {
      Multiples(q, a / b + 1, b);
    }
  }

  lemma Multiples(x: nat, y: nat, b: nat)
    requires x >= y
    ensures x * b >= y * b
  {
  }

  /** There is a cell for every item. */
  lemma EnoughRows(l: Layout)
    requires l.Ok()
    ensures l.Rows() * l.columns >= l.items
  {
  }

  /** And no more rows than that takes. */
  lemma NoRowTooMany(l: Layout)
    requires l.Ok() && l.Rows() > 1
    ensures (l.Rows() - 1) * l.columns < l.items
  {
  }

  /** From item to cell and back: every item lies inside the grid, and the cell leads back. */
  lemma ItemRoundTrip(l: Layout, item: nat)
    requires l.Ok() && item < l.items
    ensures var (row, col) := l.ToRowCol(item);
      row < l.Rows() && col < l.columns && l.ToItem(row, col) == item
  {
    EnoughRows(l);
    LineOf(item, if l.vertical then l.Rows() else l.columns, if l.vertical then l.columns else l.Rows());
  }

  lemma LineOf(item: nat, per: nat, lines: nat)
    requires per > 0 && item < lines * per
    ensures item / per < lines && item == item / per * per + item % per
  {
  }

  /** From cell to item and back: no two cells of the grid hold the same item. */
  lemma CellRoundTrip(l: Layout, row: nat, col: nat)
    requires l.Ok() && row < l.Rows() && col < l.columns
    requires l.ToItem(row, col) < l.items
    ensures l.ToRowCol(l.ToItem(row, col)) == (row, col)
  {
    if !l.vertical {
      DivMod(l.ToItem(row, col), l.columns, row, col);
    } else {
      DivMod(l.ToItem(row, col), l.Rows(), col, row);
    }
  }

  // ----- the lasso

  datatype Area = Area(x: nat, y: nat, width: int, height: int)
  {
    predicate Holds(cell: (nat, nat)) {
      y <= cell.0 < y + height && x <= cell.1 < x + width
    }
  }

  /** Every item in the area is selected or inverted, and nothing else changes. */
  function Lassoed(s: seq<Item>, l: Layout, a: Area, op: SelectionOp): (r: seq<Item>)
    requires l.Ok() && l.items == |s|
    ensures |r| == |s|
  {
    seq(|s|, i requires 0 <= i < |s| =>
      if a.Holds(l.ToRowCol(i)) then s[i].(selected := op == Set || !s[i].selected) else s[i])
  }

  /** An empty area holds nothing, one as large as the grid everything. */
  lemma LassoExtremes(s: seq<Item>, l: Layout, a: Area, op: SelectionOp)
    requires l.Ok() && l.items == |s|
    ensures a.width <= 0 || a.height <= 0 ==> Lassoed(s, l, a, op) == s
    ensures a.x == 0 && a.y == 0 && a.width >= l.columns && a.height >= l.Rows() ==>
              Lassoed(s, l, a, op) == if op == Set then AllMarked(s, true) else Inverted(s)
  {
    forall i | 0 <= i < |s| ensures var (row, col) := l.ToRowCol(i); row < l.Rows() && col < l.columns {
      ItemRoundTrip(l, i);
    }
  }

  /** Two areas side by side, or one below the other, are one. */
  lemma LassoSplits(s: seq<Item>, l: Layout, a: Area, op: SelectionOp, part: nat)
    requires l.Ok() && l.items == |s|
    ensures part <= a.width ==>
      Lassoed(Lassoed(s, l, a.(width := part), op), l, a.(x := a.x + part, width := a.width - part), op)
      == Lassoed(s, l, a, op)
    ensures part <= a.height ==>
      Lassoed(Lassoed(s, l, a.(height := part), op), l, a.(y := a.y + part, height := a.height - part), op)
      == Lassoed(s, l, a, op)
  {
  }

  /** Inverting the same area twice changes nothing; selecting it twice is selecting it once. */
  lemma LassoTwice(s: seq<Item>, l: Layout, a: Area)
    requires l.Ok() && l.items == |s|
    ensures Lassoed(Lassoed(s, l, a, Invert), l, a, Invert) == s
    ensures Lassoed(Lassoed(s, l, a, Set), l, a, Set) == Lassoed(s, l, a, Set)
  {
  }
}
