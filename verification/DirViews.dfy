/** A directory view of `ViewSync` as a window of `DirSpec` sees it: what update_display does with
    DIR_ADD, DIR_REMOVE and DIR_END_SCAN is what the state machine takes these events to be. */
module DirViews {
  import opened Basics
  import opened DirSpec
  import opened ViewSync

  /** The names that a view displays. */
  function NamesIn(view: seq<DirItem>): set<Name> {
    set i | 0 <= i < |view| :: view[i].leafname
  }

  /** Those that it displays more than once. */
  ghost function NamesTwice(view: seq<DirItem>): set<Name> {
    set i, j | 0 <= i < j < |view| && view[i].leafname == view[j].leafname :: view[i].leafname
  }

  /** The window is in the state that the state machine has for it. */
  ghost predicate Displays(w: FilerWindow, u: User)
    reads w
  {
    && u.showHidden == (w.showHidden || w.tempShowHidden)
    && u.view == NamesIn(w.view) && u.doubled == NamesTwice(w.view)
  }

  lemma OneMoreItem(view: seq<DirItem>, item: DirItem)
    ensures NamesIn(view + [item]) == NamesIn(view) + {item.leafname}
    ensures NamesTwice(view + [item])
         == NamesTwice(view) + if item.leafname in NamesIn(view) then {item.leafname} else {}
  {
    var n, all := item.leafname, view + [item];
    assert all[|view|] == item && forall i :: 0 <= i < |view| ==> all[i] == view[i];
    forall m ensures m in NamesIn(all) <==> m in NamesIn(view) || m == n {
      if m in NamesIn(view) {
        var i :| 0 <= i < |view| && view[i].leafname == m;
        assert all[i].leafname == m;
      }
    }
    forall m ensures m in NamesTwice(all) <==> m in NamesTwice(view) || (m == n && n in NamesIn(view)) {
      if m in NamesTwice(view) {
        var i, j :| 0 <= i < j < |view| && view[i].leafname == view[j].leafname == m;
        assert all[i].leafname == all[j].leafname == m;
      }
      if m == n && n in NamesIn(view) {
        var i :| 0 <= i < |view| && view[i].leafname == n;
        assert all[i].leafname == all[|view|].leafname == m;
      }
    }
  }

  /** update_display with DIR_ADD: whatever passes the filter is appended. */
  method AddItems(w: FilerWindow, ghost u: User, items: seq<DirItem>)
    requires Displays(w, u)
    modifies w`view
    ensures Displays(w, OnAdd(u, NamesIn(items), NamesTwice(items)))
  {
    hide NamesIn, NamesTwice;
    assert items[..0] == [];
    NoItems();
    for i := 0 to |items|
      invariant Displays(w, OnAdd(u, NamesIn(items[..i]), NamesTwice(items[..i])))
    {
      assert items[..i + 1] == items[..i] + [items[i]];
      OneMoreItem(items[..i], items[i]);
      OneMoreItem(w.view, items[i]);
      OneMoreShown(u, NamesIn(items[..i]), NamesTwice(items[..i]), items[i].leafname);
      if w.MatchFilter(items[i]) { w.view := w.view + [items[i]]; }
    }
    assert items[..|items|] == items;
  }

  lemma NoItems()
    ensures NamesIn([]) == {} && NamesTwice([]) == {}
  {
  }

  lemma OneMoreShown(u: User, names: set<Name>, twice: set<Name>, n: Name)
    ensures var now, next := OnAdd(u, names, twice), OnAdd(u, names + {n}, twice + if n in names then {n} else {});
      && next.showHidden == u.showHidden
      && (!u.Shows(n) ==> next == now)
      && (u.Shows(n) ==>
            next.view == now.view + {n} && next.doubled == now.doubled + if n in now.view then {n} else {})
  {
  }

  /** update_display with DIR_REMOVE: whatever has one of the names is taken out. */
  method DeleteItems(w: FilerWindow, ghost u: User, gone: seq<DirItem>)
    requires Displays(w, u)
    modifies w`view
    ensures Displays(w, OnRemove(u, NamesIn(gone)))
  {
    hide NamesIn, NamesTwice;
    NoItems();
    var kept: seq<DirItem> := [];
    assert w.view[..0] == [];
    for i := 0 to |w.view|
      invariant w.view == old(w.view)
      invariant NamesIn(kept) == NamesIn(w.view[..i]) - NamesIn(gone)
      invariant NamesTwice(kept) == NamesTwice(w.view[..i]) - NamesIn(gone)
    {
      assert w.view[..i + 1] == w.view[..i] + [w.view[i]];
      OneMoreItem(w.view[..i], w.view[i]);
      OneMoreItem(kept, w.view[i]);
      if w.view[i].leafname !in NamesIn(gone) { kept := kept + [w.view[i]]; }
    }
    assert w.view[..|w.view|] == w.view;
    w.view := kept;
  }

  /** update_display with DIR_END_SCAN */
  method EndScan(w: FilerWindow, ghost u: User, ghost known: set<Name>)
    requires Keyed(w.knownItems) && w.knownItems.Keys == known && Displays(w, u)
    modifies w`view
    ensures Displays(w, OnEndScan(u, known))
  {
    var rebuilt := w.SyncCompleteDirectoryView();
    WantedNames(w, u, known);
    EachOnceByName(w.view, w.Wanted());
  }

  lemma WantedNames(w: FilerWindow, u: User, known: set<Name>)
    requires Keyed(w.knownItems) && w.knownItems.Keys == known
    requires u.showHidden == (w.showHidden || w.tempShowHidden)
    ensures (set item | item in w.Wanted() :: item.leafname) == u.Visible(known)
    ensures forall a, b :: a in w.Wanted() && b in w.Wanted() && a.leafname == b.leafname ==> a == b
  {
    forall n | n in u.Visible(known) ensures w.knownItems[n] in w.Wanted() && w.knownItems[n].leafname == n {
    }
  }

  /** A view that is a permutation of items of different names displays each name once. */
  lemma EachOnceByName(view: seq<DirItem>, wanted: set<DirItem>)
    requires multiset(view) == multiset(wanted)
    requires forall a, b :: a in wanted && b in wanted && a.leafname == b.leafname ==> a == b
    ensures NamesIn(view) == (set item | item in wanted :: item.leafname) && NamesTwice(view) == {}
  {
    forall item ensures item in view <==> item in wanted {
      assert item in view <==> item in multiset(view);
      assert item in wanted <==> item in multiset(wanted);
    }
    forall i, j | 0 <= i < j < |view| ensures view[i].leafname != view[j].leafname {
      assert view[i] in view && view[j] in view && multiset(wanted)[view[i]] == 1;
      if view[i] == view[j] { Twice(view, i, j); }
    }
    forall item | item in wanted ensures item.leafname in NamesIn(view) {
      var i :| 0 <= i < |view| && view[i] == item;
    }
  }
}
