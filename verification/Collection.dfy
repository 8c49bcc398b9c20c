/** The collection widget of collection.c: an array of items with a cached count of the
    selected ones.  Some of its loops have no bound of their own and rely on the count. */
module Collections {
  import opened Basics
  import opened CollectionSpec

  const MINIMUM_ITEMS := 16

  class Collection {
    var items: array<Item>     // of length array_size
    var numberOfItems: nat
    var numberSelected: nat
    var cursorItem: int        // -1 if not shown
    var columns: nat
    var verticalOrder: bool
    var blockChanged: nat      // block_selection_changed
    var signals: seq<Signal>   // emitted so far

    ghost predicate Valid()
      reads this, items
    {
      && MINIMUM_ITEMS <= items.Length && numberOfItems <= items.Length
      && numberSelected == Selected(Contents())
      && -1 <= cursorItem && (cursorItem < numberOfItems || cursorItem == 0)
      && columns > 0
      && Flag(signals) == (numberSelected > 0)
    }

    ghost function Contents(): (s: seq<Item>)
      requires numberOfItems <= items.Length
      reads this, items
    {
      items[..numberOfItems]
    }

    function CurrentLayout(): Layout
      reads this
    {
      Layout(numberOfItems, columns, verticalOrder)
    }

    constructor (columns: nat)
      requires columns > 0
      ensures Valid() && fresh(items) && Contents() == [] && cursorItem == -1 && this.columns == columns
    {
      items := new Item[MINIMUM_ITEMS](_ => Item(0, 0, false));
      numberOfItems, numberSelected, cursorItem := 0, 0, -1;
      this.columns, verticalOrder, blockChanged, signals := columns, false, 0, [];
    }

    method Emit(signal: Signal)
      modifies `signals
      ensures signals == old(signals) + [signal]
      ensures Flag(signals) == if signal.SelectionChanged? then Flag(old(signals)) else signal.GainSelection?
    {
      assert (signals + [signal])[..|signals|] == signals;
      signals := signals + [signal];
    }

    /** EMIT_SELECTION_CHANGED */
    method EmitChanged()
      modifies `signals
      ensures signals == old(signals) + Changed(blockChanged)
      ensures Flag(signals) == Flag(old(signals))
    {
      if blockChanged == 0 { Emit(SelectionChanged); }
    }

    /** resize_arrays */
    method ResizeArrays(size: nat)
      requires numberOfItems <= size && numberOfItems <= items.Length
      modifies `items
      ensures fresh(items) && items.Length == size && Contents() == old(Contents())
    {
      var bigger := new Item[size](_ => Item(0, 0, false));
      for i := 0 to numberOfItems
        invariant items == old(items) && bigger[..i] == items[..i]
      {
        bigger[i] := items[i];
      }
      items := bigger;
    }

    /** collection_insert */
    method Insert(data: int, view: int) returns (item: nat)
      requires Valid()
      modifies this, items
      ensures Valid() && (items == old(items) || fresh(items))
      ensures Contents() == old(Contents()) + [Item(data, view, false)] && item == old(numberOfItems)
      ensures cursorItem == old(cursorItem) && numberSelected == old(numberSelected) && signals == old(signals)
      ensures columns == old(columns) && verticalOrder == old(verticalOrder)
    {
      hide Selected, Flag;
      ghost var s := Contents();
      item := numberOfItems;
      if item >= items.Length { ResizeArrays(item + item / 2); }
      items[item] := Item(data, view, false);
      numberOfItems := numberOfItems + 1;
      assert Contents() == s + [Item(data, view, false)];
      SelectedStep(s, Item(data, view, false));
    }

    /** collection_item_set_selected */
    method ItemSetSelected(item: nat, selected: bool, signal: bool)
      requires Valid() && item < numberOfItems
      modifies `numberSelected, `signals, items
      ensures numberSelected == Selected(Contents())
      ensures numberSelected == old(numberSelected)
        + (if selected then 1 else 0) - (if old(items[item].selected) then 1 else 0)
      ensures Contents() == old(Contents())[item := old(Contents())[item].(selected := selected)]
      ensures signals == old(signals) +
        if old(items[item].selected) == selected then []
        else (if signal then Crossed(old(numberSelected), numberSelected) else []) + Changed(blockChanged)
      ensures signal ==> Flag(signals) == (numberSelected > 0)
      ensures !signal ==> Flag(signals) == Flag(old(signals))
    {
      hide Selected, Flag;
      if items[item].selected == selected {
        assert Contents() == old(Contents())[item := old(Contents())[item].(selected := selected)];
        return;
      }
      Put(item, selected);
      if selected {
        numberSelected := numberSelected + 1;
        if signal && numberSelected == 1 { Emit(GainSelection); }
      } else {
        numberSelected := numberSelected - 1;
        if signal && numberSelected == 0 { Emit(LoseSelection); }
      }
      EmitChanged();
    }

    method SelectItem(item: nat)
      requires Valid() && item < numberOfItems
      modifies `numberSelected, `signals, items
      ensures Valid() && Contents() == old(Contents())[item := old(Contents())[item].(selected := true)]
      ensures numberSelected == old(numberSelected) + if old(items[item].selected) then 0 else 1
      ensures signals == old(signals) +
        if old(items[item].selected) then [] else Crossed(old(numberSelected), numberSelected) + Changed(blockChanged)
    {
      ItemSetSelected(item, true, true);
    }

    method UnselectItem(item: nat)
      requires Valid() && item < numberOfItems
      modifies `numberSelected, `signals, items
      ensures Valid() && Contents() == old(Contents())[item := old(Contents())[item].(selected := false)]
      ensures numberSelected == old(numberSelected) - if old(items[item].selected) then 1 else 0
      ensures signals == old(signals) +
        if old(items[item].selected) then Crossed(old(numberSelected), numberSelected) + Changed(blockChanged) else []
    {
      ItemSetSelected(item, false, true);
    }

    method ToggleItem(item: nat)
      requires Valid() && item < numberOfItems
      modifies `numberSelected, `signals, items
      ensures Valid()
      ensures Contents() == old(Contents())[item := old(Contents())[item].(selected := !old(Contents())[item].selected)]
      ensures numberSelected == old(numberSelected) + if old(items[item].selected) then -1 else 1
      ensures signals == old(signals) + Crossed(old(numberSelected), numberSelected) + Changed(blockChanged)
    {
      ItemSetSelected(item, !items[item].selected, true);
    }

    /** Change the state of one item and nothing else, not even the count. */
    method Put(item: nat, selected: bool)
      requires item < numberOfItems <= items.Length
      modifies items
      ensures Contents() == old(Contents())[item := old(Contents())[item].(selected := selected)]
      ensures Selected(Contents()) == Selected(old(Contents()))
        + (if selected then 1 else 0) - (if old(Contents())[item].selected then 1 else 0)
    {
      SelectedAt(Contents(), item, selected);
      items[item] := items[item].(selected := selected);
      assert Contents() == old(Contents())[item := old(Contents())[item].(selected := selected)];
    }

    /** The unguarded inner loop of collection_select_all: while fewer items than all are
        selected it stops inside the array. */
    method NextUnselected(from: nat) returns (item: nat)
      requires numberOfItems <= items.Length && from <= numberOfItems
      requires Selected(Contents()) < numberOfItems
      requires forall i :: 0 <= i < from ==> items[i].selected
      ensures from <= item < numberOfItems && !items[item].selected
      ensures forall i :: 0 <= i < item ==> items[i].selected
    {
      SelectedBounds(Contents());
      ghost var k :| 0 <= k < |Contents()| && !Contents()[k].selected;
      item := from;
      while items[item].selected
        invariant from <= item <= k
        invariant forall i :: 0 <= i < item ==> items[i].selected
        decreases k - item
      {
        item := item + 1;
      }
    }

    /** collection_select_all */
    method SelectAll()
      requires Valid()
      modifies `numberSelected, `signals, items
      ensures Valid() && Contents() == AllMarked(old(Contents()), true) && numberSelected == numberOfItems
      ensures signals == old(signals) +
        if old(numberSelected) == numberOfItems then [] else [GainSelection] + Changed(blockChanged)
    {
      SelectedBounds(Contents());
      if numberSelected == numberOfItems {
        assert Contents() == AllMarked(Contents(), true);
        return;
      }
      SelectRest();
      SelectedBounds(Contents());
      Emit(GainSelection);
      EmitChanged();
    }

    /** Its loop: select until all items are. */
    method SelectRest()
      requires numberOfItems <= items.Length && numberSelected == Selected(Contents()) <= numberOfItems
      modifies `numberSelected, items
      ensures numberSelected == numberOfItems == Selected(Contents())
      ensures Contents() == AllMarked(old(Contents()), true)
    {
      hide Selected;
      ghost var s := Contents();
      var item := 0;
      while numberSelected < numberOfItems
        invariant item <= numberOfItems && numberSelected == Selected(Contents()) <= numberOfItems
        invariant forall i :: 0 <= i < item ==> Contents()[i] == s[i].(selected := true)
        invariant forall i :: item <= i < numberOfItems ==> Contents()[i] == s[i]
        decreases numberOfItems - numberSelected
      {
        item := NextUnselected(item);
        Put(item, true);
        SelectedBounds(Contents());
        item := item + 1;
        numberSelected := numberSelected + 1;
      }
      SelectedBounds(Contents());
      assert forall i :: item <= i < numberOfItems ==> s[i].selected;
      assert Contents() == AllMarked(s, true);
    }

    /** The unguarded inner loop of collection_clear_except. */
    method NextToClear(from: nat, item: int) returns (i: nat)
      requires numberOfItems <= items.Length && from <= numberOfItems && -1 <= item < numberOfItems
      requires Selected(Contents()) > (if item == -1 then 0 else 1)
      requires item != -1 ==> items[item].selected
      requires forall j :: 0 <= j < from && j != item ==> !items[j].selected
      ensures from <= i < numberOfItems && i != item && items[i].selected
      ensures forall j :: 0 <= j < i && j != item ==> !items[j].selected
    {
      if forall j :: 0 <= j < |Contents()| && j != item ==> !Contents()[j].selected {
        SelectedOnly(Contents(), item);
      }
      ghost var k :| 0 <= k < |Contents()| && k != item && Contents()[k].selected;
      i := from;
      while i == item || !items[i].selected
        invariant from <= i <= k
        invariant forall j :: 0 <= j < i && j != item ==> !items[j].selected
        decreases k - i
      {
        i := i + 1;
      }
    }

    /** collection_clear_except; -1 clears everything. */
    method ClearExcept(item: int)
      requires Valid() && -1 <= item < numberOfItems
      modifies `numberSelected, `signals, items
      ensures Valid() && Contents() == OnlyMarked(old(Contents()), item)
      ensures numberSelected == if item == -1 then 0 else 1
      ensures signals == old(signals)
        + ClearSignals(item, item != -1 && old(items[item].selected), old(numberSelected), blockChanged)
    {
      hide Selected, Flag, Crossed;
      var end := 0;
      if item != -1 {
        SelectItem(item);
        end := 1;
      }
      ghost var s := Contents();
      SelectedBounds(s);
      assert item != -1 ==> s[item].selected;
      if numberSelected == 0 {
        assert Contents() == OnlyMarked(old(Contents()), item);
        return;
      }
      ClearOthers(item, end);
      assert OnlyMarked(s, item) == OnlyMarked(old(Contents()), item);
      SelectedOnly(Contents(), item);
      if end == 0 { Emit(LoseSelection); }
      EmitChanged();
    }

    /** Its loop: unselect until `end` items are left. */
    method ClearOthers(item: int, end: nat)
      requires numberOfItems <= items.Length && numberSelected == Selected(Contents())
      requires -1 <= item < numberOfItems && end == (if item == -1 then 0 else 1)
      requires item != -1 ==> items[item].selected
      modifies `numberSelected, items
      ensures numberSelected == end && Contents() == OnlyMarked(old(Contents()), item)
    {
      hide Selected;
      ghost var s := Contents();
      var i := 0;
      AtLeast(s, item);
      while numberSelected > end
        invariant i <= numberOfItems && numberSelected == Selected(Contents()) && numberSelected >= end
        invariant item != -1 ==> Contents()[item] == s[item]
        invariant forall j :: 0 <= j < i && j != item ==> Contents()[j] == s[j].(selected := false)
        invariant forall j :: i <= j < numberOfItems ==> Contents()[j] == s[j]
        decreases numberSelected
      {
        i := NextToClear(i, item);
        Put(i, false);
        i := i + 1;
        numberSelected := numberSelected - 1;
      }
      NothingElse(Contents(), item);
      assert Contents() == OnlyMarked(s, item);
    }

    /** collection_clear_selection */
    method ClearSelection()
      requires Valid()
      modifies `numberSelected, `signals, items
      ensures Valid() && Contents() == AllMarked(old(Contents()), false) && numberSelected == 0
      ensures signals == old(signals) +
        if old(numberSelected) == 0 then [] else [LoseSelection] + Changed(blockChanged)
    {
      ClearExcept(-1);
      assert Contents() == AllMarked(old(Contents()), false);
    }

    /** collection_invert_selection */
    method InvertSelection()
      requires Valid()
      modifies `numberSelected, `signals, items
      ensures Valid()
      ensures Contents() == Inverted(old(Contents()))
      ensures signals == old(signals) + Crossed(old(numberSelected), numberSelected)
        + if numberOfItems == 0 then [] else Changed(blockChanged)
    {
      SelectedBounds(Contents());
      hide Selected, Flag;
      ghost var s := Contents();
      if numberSelected == 0 {
        SelectAll();
        assert Contents() == Inverted(s);
        return;
      } else if numberOfItems == numberSelected {
        ClearSelection();
        assert Contents() == Inverted(s);
        return;
      }
      FlipAll();
      numberSelected := numberOfItems - numberSelected;
      EmitChanged();
    }

    /** Its loop: toggle every item. */
    method FlipAll()
      requires numberOfItems <= items.Length
      modifies items
      ensures Contents() == Inverted(old(Contents()))
      ensures Selected(Contents()) == numberOfItems - Selected(old(Contents()))
    {
      ghost var s := Contents();
      for item := 0 to numberOfItems
        invariant forall i :: 0 <= i < item ==> items[i] == s[i].(selected := !s[i].selected)
        invariant forall i :: item <= i < numberOfItems ==> items[i] == s[i]
      {
        items[item] := items[item].(selected := !items[item].selected);
      }
      SelectedInverted(s, Contents());
      assert Contents() == Inverted(s);
    }

    /** The compaction loop of collection_delete_if. */
    method Compact(remove: int -> bool) returns (kept: nat, selected: nat, cursor: int)
      requires numberOfItems <= items.Length && -1 <= cursorItem && (cursorItem < numberOfItems || cursorItem == 0)
      modifies items
      ensures kept <= numberOfItems && items[..kept] == Kept(old(Contents()), remove)
      ensures selected == Selected(items[..kept])
      ensures kept == numberOfItems ==> Contents() == old(Contents())
      ensures cursorItem < numberOfItems ==> cursor == CursorAfter(old(Contents()), remove, cursorItem)
    {
      hide Kept, Selected, CursorAfter;
      ghost var s := Contents();
      kept, selected, cursor := 0, 0, cursorItem;
      KeptEmpty(s, remove, cursorItem);
      for i := 0 to numberOfItems
        invariant kept <= i && items[..kept] == Kept(s[..i], remove)
        invariant forall j :: i <= j < numberOfItems ==> items[j] == s[j]
        invariant kept == i ==> items[..i] == s[..i]
        invariant selected == Selected(items[..kept])
        invariant cursorItem < numberOfItems ==> cursor == CursorUpTo(s, remove, cursorItem, i)
      {
        KeptStep(s, remove, cursorItem, i);
        if !remove(items[i].data) {
          if items[i].selected { selected := selected + 1; }
          SelectedStep(items[..kept], items[i]);
          ghost var before := items[..kept];
          items[kept] := items[i];
          kept := kept + 1;
          assert items[..kept] == before + [s[i]];
        } else {
          if cursorItem >= i { cursor := cursor - 1; }
        }
      }
      assert s[..numberOfItems] == s;
      CursorAtEnd(s, remove, cursorItem);
    }

    /** collection_delete_if.  The items that are kept stay in order and keep their state. */
    method DeleteIf(remove: int -> bool)
      requires Valid()
      modifies this, items
      ensures Valid() && (items == old(items) || fresh(items))
      ensures Contents() == Kept(old(Contents()), remove)
      ensures cursorItem == if old(cursorItem) < old(numberOfItems)
                            then CursorAfter(old(Contents()), remove, old(cursorItem)) else old(cursorItem)
      ensures columns == old(columns) && verticalOrder == old(verticalOrder) && blockChanged == old(blockChanged)
      ensures signals == old(signals) + Crossed(old(numberSelected), numberSelected)
    {
      hide Kept, Selected, CursorAfter;
      ghost var s := Contents();
      KeptSize(s, remove);
      var kept, selected, cursor := Compact(remove);
      if kept != numberOfItems {
        cursorItem := cursor;
        numberOfItems := kept;
        KeptSelected(s, remove);
        CursorInside(s, remove, old(cursorItem));
        if numberSelected > 0 && selected == 0 { Emit(LoseSelection); }
        numberSelected := selected;
        var size := if numberOfItems > MINIMUM_ITEMS then numberOfItems else MINIMUM_ITEMS;
        ResizeArrays(size);
      }
    }

    /** The loops of collection_process_area: row by row, the cells of the area that exist. */
    method ProcessCells(a: Area, op: SelectionOp) returns (changed: bool)
      requires Valid() && blockChanged > 0
      modifies `numberSelected, `signals, items
      ensures numberSelected == Selected(Contents()) && signals == old(signals)
      ensures Contents() == Lassoed(old(Contents()), CurrentLayout(), a, op)
      ensures changed <==> HoldsSome(CurrentLayout(), a)
    {
      hide Swept, Touched, HoldsSome, Lassoed, Selected, Flag, Hit;
      ghost var s, l := Contents(), CurrentLayout();
      var rows := CurrentLayout().Rows();
      SweptNone(s, l, a, op);
      changed := false;
      var y := a.y;
      while y < a.y + a.height && y < rows
        invariant a.y <= y && numberSelected == Selected(Contents())
        invariant signals == old(signals) && CurrentLayout() == l
        invariant Contents() == Swept(s, l, a, op, y, a.x) && (changed <==> Touched(l, a, y, a.x))
      {
        var x := a.x;
        while x < a.x + a.width && x < columns
          invariant a.x <= x && numberSelected == Selected(Contents())
          invariant signals == old(signals) && CurrentLayout() == l
          invariant Contents() == Swept(s, l, a, op, y, x) && (changed <==> Touched(l, a, y, x))
        {
          var item := CurrentLayout().ToItem(y, x);
          SweptNext(s, l, a, op, y, x);
          if item < numberOfItems {
            PutInArea(item, op);
            changed := true;
          }
          x := x + 1;
        }
        SweptRow(s, l, a, op, y, x);
        y := y + 1;
      }
      SweptAll(s, l, a, op, y);
    }

    /** One cell of the area, without the gain and lose signals. */
    method PutInArea(item: nat, op: SelectionOp)
      requires item < numberOfItems <= items.Length && numberSelected == Selected(Contents()) && blockChanged > 0
      modifies `numberSelected, `signals, items
      ensures numberSelected == Selected(Contents()) && signals == old(signals)
      ensures Contents() == old(Contents())[item := Hit(old(Contents())[item], op)]
    {
      SetQuietly(item, op == Set || !items[item].selected);
    }

    /** collection_item_set_selected with `signal` FALSE. */
    method SetQuietly(item: nat, selected: bool)
      requires item < numberOfItems <= items.Length && numberSelected == Selected(Contents()) && blockChanged > 0
      modifies `numberSelected, `signals, items
      ensures numberSelected == Selected(Contents()) && signals == old(signals)
      ensures Contents() == old(Contents())[item := old(Contents())[item].(selected := selected)]
    {
      if items[item].selected == selected {
        assert Contents() == old(Contents())[item := old(Contents())[item].(selected := selected)];
        return;
      }
      Put(item, selected);
      numberSelected := if selected then numberSelected + 1 else numberSelected - 1;
      EmitChanged();
    }

    /** collection_process_area: the items of the area are selected or inverted, each once. */
    method ProcessArea(a: Area, op: SelectionOp)
      requires Valid()
      modifies `numberSelected, `signals, `blockChanged, items
      ensures Valid() && blockChanged == old(blockChanged)
      ensures Contents() == Lassoed(old(Contents()), CurrentLayout(), a, op)
      ensures signals == old(signals) + Crossed(old(numberSelected), numberSelected)
        + if HoldsSome(CurrentLayout(), a) then Changed(blockChanged) else []
    {
      hide Selected, Flag, Lassoed, HoldsSome;
      var oldSelected := numberSelected;
      blockChanged := blockChanged + 1;
      var changed := ProcessCells(a, op);
      if numberSelected > 0 && oldSelected == 0 { Emit(GainSelection); }
      else if numberSelected == 0 && oldSelected > 0 { Emit(LoseSelection); }
      blockChanged := blockChanged - 1;
      if changed { EmitChanged(); }
    }

    /** collection_clear */
    method Clear()
      requires Valid()
      modifies this, items
      ensures Valid() && (items == old(items) || fresh(items)) && Contents() == [] && numberSelected == 0
    {
      KeptNone(Contents(), _ => true, 0, numberOfItems);
      assert Contents()[..numberOfItems] == Contents();
      DeleteIf(_ => true);
    }
  }

  function Hit(x: Item, op: SelectionOp): Item {
    x.(selected := op == Set || !x.selected)
  }

  /** The sweep, row by row, has passed the cell. */
  predicate Passed(y: int, x: int, cell: (nat, nat)) {
    cell.0 < y || (cell.0 == y && cell.1 < x)
  }

  /** The contents when the sweep of the area has come to row `y` and column `x`. */
  function Swept(s: seq<Item>, l: Layout, a: Area, op: SelectionOp, y: int, x: int): (r: seq<Item>)
    requires l.Ok() && l.items == |s|
    ensures |r| == |s|
  {
    seq(|s|, i requires 0 <= i < |s| =>
      if a.Holds(l.ToRowCol(i)) && Passed(y, x, l.ToRowCol(i)) then Hit(s[i], op) else s[i])
  }

  /** Some item lies in the area. */
  ghost predicate HoldsSome(l: Layout, a: Area)
    requires l.Ok()
  {
    exists i :: 0 <= i < l.items && a.Holds(l.ToRowCol(i))
  }

  /** And the sweep has passed one. */
  ghost predicate Touched(l: Layout, a: Area, y: int, x: int)
    requires l.Ok()
  {
    exists i :: 0 <= i < l.items && a.Holds(l.ToRowCol(i)) && Passed(y, x, l.ToRowCol(i))
  }

  lemma SweptNext(s: seq<Item>, l: Layout, a: Area, op: SelectionOp, y: nat, x: nat)
    requires l.Ok() && l.items == |s| && a.Holds((y, x)) && y < l.Rows() && x < l.columns
    ensures var item := l.ToItem(y, x); var now := Swept(s, l, a, op, y, x);
      Swept(s, l, a, op, y, x + 1) == if item < |s| then now[item := Hit(now[item], op)] else now
    ensures Touched(l, a, y, x + 1) <==> Touched(l, a, y, x) || l.ToItem(y, x) < |s|
  {
    var item := l.ToItem(y, x);
    if item < |s| { CellRoundTrip(l, y, x); }
    forall i | 0 <= i < |s|
      ensures l.ToRowCol(i) == (y, x) <==> i == item
    {
      ItemRoundTrip(l, i);
    }
  }

  lemma SweptNone(s: seq<Item>, l: Layout, a: Area, op: SelectionOp)
    requires l.Ok() && l.items == |s|
    ensures Swept(s, l, a, op, a.y, a.x) == s && !Touched(l, a, a.y, a.x)
  {
  }

  lemma SweptRow(s: seq<Item>, l: Layout, a: Area, op: SelectionOp, y: nat, x: nat)
    requires l.Ok() && l.items == |s| && a.x <= x && !(x < a.x + a.width && x < l.columns)
    ensures Swept(s, l, a, op, y, x) == Swept(s, l, a, op, y + 1, a.x)
    ensures Touched(l, a, y, x) <==> Touched(l, a, y + 1, a.x)
  {
    forall i | 0 <= i < |s|
      ensures a.Holds(l.ToRowCol(i)) ==> (Passed(y, x, l.ToRowCol(i)) <==> Passed(y + 1, a.x, l.ToRowCol(i)))
    {
      ItemRoundTrip(l, i);
    }
  }

  lemma SweptAll(s: seq<Item>, l: Layout, a: Area, op: SelectionOp, y: nat)
    requires l.Ok() && l.items == |s| && a.y <= y && !(y < a.y + a.height && y < l.Rows())
    ensures Swept(s, l, a, op, y, a.x) == Lassoed(s, l, a, op)
    ensures Touched(l, a, y, a.x) <==> HoldsSome(l, a)
  {
    forall i | 0 <= i < |s|
      ensures a.Holds(l.ToRowCol(i)) ==> Passed(y, a.x, l.ToRowCol(i))
    {
      ItemRoundTrip(l, i);
    }
  }

  /** The cursor after the first `i` items have been dealt with. */
  function CursorUpTo(s: seq<Item>, remove: int -> bool, cursor: int, i: nat): int
    requires i <= |s| && -1 <= cursor < |s|
  {
    var n := Least(i, cursor + 1);
    cursor + |Kept(s[..n], remove)| - n
  }

  lemma KeptEmpty(s: seq<Item>, remove: int -> bool, cursor: int)
    ensures Kept(s[..0], remove) == [] && Selected(Kept(s[..0], remove)) == 0
    ensures -1 <= cursor < |s| ==> CursorUpTo(s, remove, cursor, 0) == cursor
  {
  }

  lemma KeptStep(s: seq<Item>, remove: int -> bool, cursor: int, i: nat)
    requires i < |s|
    ensures Kept(s[..i + 1], remove)
         == if remove(s[i].data) then Kept(s[..i], remove) else Kept(s[..i], remove) + [s[i]]
    ensures -1 <= cursor < |s| ==>
      CursorUpTo(s, remove, cursor, i + 1)
      == CursorUpTo(s, remove, cursor, i) - if remove(s[i].data) && cursor >= i then 1 else 0
  {
    assert s[..i + 1][..i] == s[..i];
  }

  lemma SelectedStep(s: seq<Item>, x: Item)
    ensures Selected(s + [x]) == Selected(s) + if x.selected then 1 else 0
  {
  }

  lemma CursorAtEnd(s: seq<Item>, remove: int -> bool, cursor: int)
    ensures -1 <= cursor < |s| ==> CursorUpTo(s, remove, cursor, |s|) == CursorAfter(s, remove, cursor)
  {
  }

  /** The cursor stays inside what is left. */
  lemma CursorInside(s: seq<Item>, remove: int -> bool, cursor: int)
    ensures -1 <= cursor < |s| ==>
              var after := CursorAfter(s, remove, cursor); -1 <= after < |Kept(s, remove)| || after == -1
    ensures |Kept(s, remove)| < |s| ==> s != []
  {
    if -1 <= cursor < |s| { KeptPrefix(s, remove, cursor + 1); }
  }

  lemma {:induction false} KeptSize(s: seq<Item>, remove: int -> bool)
    ensures |Kept(s, remove)| == |s| ==> Kept(s, remove) == s
    ensures forall c :: -1 <= c < |s| && |Kept(s, remove)| == |s| ==> CursorAfter(s, remove, c) == c
  {
    if s != [] {
      var n := |s| - 1;
      KeptSize(s[..n], remove);
      if |Kept(s, remove)| == |s| {
        forall c | -1 <= c < |s| ensures CursorAfter(s, remove, c) == c {
          if c < n {
            assert s[..n][..c + 1] == s[..c + 1] && CursorAfter(s[..n], remove, c) == c;
          } else {
            assert s[..c + 1] == s;
          }
        }
      }
    }
  }

  /** Deleting selects nothing. */
  lemma {:induction false} KeptSelected(s: seq<Item>, remove: int -> bool)
    ensures Selected(Kept(s, remove)) <= Selected(s)
  {
    if s != [] {
      var n := |s| - 1;
      KeptSelected(s[..n], remove);
      var k := Kept(s[..n], remove);
      SelectedStep(k, s[n]);
      assert k + [] == k;
    }
  }

  lemma AtLeast(s: seq<Item>, item: int)
    requires -1 <= item < |s| && (item != -1 ==> s[item].selected)
    ensures Selected(s) >= if item == -1 then 0 else 1
  {
  }

  /** When the count says that nothing but `item` is selected, nothing else is. */
  lemma NothingElse(s: seq<Item>, item: int)
    requires -1 <= item < |s| && (item != -1 ==> s[item].selected)
    requires Selected(s) == if item == -1 then 0 else 1
    ensures forall j :: 0 <= j < |s| && j != item ==> !s[j].selected
  {
    SelectedBounds(s);
    if item != -1 {
      SelectedAt(s, item, false);
      SelectedBounds(s[item := s[item].(selected := false)]);
      assert forall j :: 0 <= j < |s| && j != item ==> s[item := s[item].(selected := false)][j] == s[j];
    }
  }
}
