/** The repair of a directory view at the end of a scan: sync_complete_directory_view of
    filer.c.  The order of the view is the business of its sort and is not modelled. */
module ViewSync {
  import opened Basics

  /** An item of the directory cache; the address tells two items of one name apart. */
  datatype DirItem = DirItem(address: nat, leafname: string)

  class FilerWindow {
    var knownItems: map<string, DirItem>   // of the window's directory
    var view: seq<DirItem>
    var showHidden: bool
    var tempShowHidden: bool

    constructor (knownItems: map<string, DirItem>, view: seq<DirItem>, showHidden: bool, tempShowHidden: bool)
      ensures this.knownItems == knownItems && this.view == view
      ensures this.showHidden == showHidden && this.tempShowHidden == tempShowHidden
    {
      this.knownItems, this.view := knownItems, view;
      this.showHidden, this.tempShowHidden := showHidden, tempShowHidden;
    }

    /** filer_match_filter: the dot is the only filter left. */
    predicate MatchFilter(item: DirItem)
      reads this
    {
      !(IsHidden(item) && !tempShowHidden && !showHidden)
    }

    /** What the view ought to hold: each known item that passes the filter, once. */
    ghost function Wanted(): set<DirItem>
      reads this
    {
      set name | name in knownItems && MatchFilter(knownItems[name]) :: knownItems[name]
    }

    /** The first loop: gather what is expected. */
    method Expected() returns (expected: seq<DirItem>)
      requires Keyed(knownItems)
      ensures NoDups(expected) && forall item :: item in expected <==> item in Wanted()
    {
      expected := [];
      var left := knownItems.Keys;
      while left != {}
        invariant left <= knownItems.Keys && NoDups(expected)
        invariant forall item :: item in expected <==>
          item.leafname in knownItems.Keys - left && knownItems[item.leafname] == item && MatchFilter(item)
        decreases left
      {
        var name :| name in left;
        left := left - {name};
        if MatchFilter(knownItems[name]) { expected := expected + [knownItems[name]]; }
      }
      forall item | item in Wanted() ensures item in expected {
        assert item.leafname in knownItems;
      }
    }

    /** Does the view differ from what is expected?  Each item of the view is taken out of a
        hash set of the expected ones. */
    method Mismatch(expected: seq<DirItem>) returns (mismatch: bool)
      requires NoDups(expected)
      ensures mismatch <==> multiset(view) != multiset(expected)
    {
      var remaining: set<DirItem> := {};
      for i := 0 to |expected|
        invariant remaining == Members(expected[..i])
      {
        MembersStep(expected, i);
        remaining := remaining + {expected[i]};
      }
      assert expected[..|expected|] == expected;
      mismatch := |view| != |expected|;
      for i := 0 to |view|
        invariant remaining == Members(expected) - Members(view[..i])
        invariant mismatch <==>
          |view| != |expected| || !NoDups(view[..i]) || !(Members(view[..i]) <= Members(expected))
      {
        MembersStep(view, i);
        NoDupsStep(view, i);
        if view[i] !in remaining { mismatch := true; }
        remaining := remaining - {view[i]};
      }
      assert view[..|view|] == view;
      if remaining != {} { mismatch := true; }
      SamePermutation(view, expected);
    }

    /** sync_complete_directory_view: whatever the view held, it ends up with each wanted item
        once, and it is rebuilt exactly when it was not like that already. */
    method SyncCompleteDirectoryView() returns (rebuilt: bool)
      requires Keyed(knownItems)
      modifies `view
      ensures multiset(view) == multiset(Wanted())
      ensures rebuilt <==> multiset(old(view)) != multiset(Wanted())
      ensures !rebuilt ==> view == old(view)
    {
      var expected := Expected();
      EachOnce(expected, Wanted());
      rebuilt := Mismatch(expected);
      if rebuilt {
        view := [];
        view := view + expected;
      }
    }
  }

  /** is_hidden */
  predicate IsHidden(item: DirItem) {
    item.leafname != "" && item.leafname[0] == '.'
  }

  /** The hash table maps leaf names to items of that name. */
  ghost predicate Keyed(known: map<string, DirItem>) {
    forall name :: name in known ==> known[name].leafname == name
  }

  lemma MembersStep(s: seq<DirItem>, i: nat)
    requires i < |s|
    ensures Members(s[..i + 1]) == Members(s[..i]) + {s[i]}
  {
  }

  lemma NoDupsStep(s: seq<DirItem>, i: nat)
    requires i < |s|
    ensures NoDups(s[..i + 1]) <==> NoDups(s[..i]) && s[i] !in Members(s[..i])
  {
  }

  /** A sequence without duplicates holds each of its elements once. */
  lemma {:induction false} EachOnce(s: seq<DirItem>, wanted: set<DirItem>)
    requires NoDups(s) && forall x :: x in s <==> x in wanted
    ensures multiset(s) == multiset(wanted) && |s| == |wanted|
  {
    if s == [] {
      assert wanted == {};
    } else {
      var n := |s| - 1;
      assert s == s[..n] + [s[n]];
      forall x | x in wanted - {s[n]} ensures x in s[..n] {
      }
      EachOnce(s[..n], wanted - {s[n]});
      assert wanted == wanted - {s[n]} + {s[n]};
      assert multiset(wanted) == multiset(wanted - {s[n]}) + multiset{s[n]};
    }
  }

  /** No duplicates, the same elements and the same length: that is to be a permutation. */
  lemma SamePermutation(view: seq<DirItem>, expected: seq<DirItem>)
    requires NoDups(expected)
    ensures multiset(view) == multiset(expected) <==>
      |view| == |expected| && NoDups(view) && Members(view) <= Members(expected)
        && Members(expected) - Members(view) == {}
  {
    EachOnce(expected, Members(expected));
    if multiset(view) == multiset(expected) {
      assert |multiset(view)| == |view| && |multiset(expected)| == |expected|;
      forall x ensures x in Members(view) <==> x in Members(expected) {
        assert x in view <==> x in multiset(view);
        assert x in expected <==> x in multiset(expected);
      }
      if !NoDups(view) {
        var i, j :| 0 <= i < j < |view| && view[i] == view[j];
        Twice(view, i, j);
      }
    } else if |view| == |expected| && NoDups(view) && Members(view) <= Members(expected)
      && Members(expected) - Members(view) == {} {
      forall x | x in Members(expected) ensures x in Members(view) {
        assert x !in Members(expected) - Members(view);
      }
      assert Members(view) == Members(expected);
      EachOnce(view, Members(view));
    }
  }

  lemma Twice(s: seq<DirItem>, i: nat, j: nat)
    requires i < j < |s| && s[i] == s[j]
    ensures multiset(s)[s[i]] >= 2
  {
    assert s == s[..j] + [s[j]] + s[j + 1..];
    assert s[i] in s[..j];
    assert multiset(s) == multiset(s[..j]) + multiset{s[j]} + multiset(s[j + 1..]);
  }
}
