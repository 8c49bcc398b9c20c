/** do_move and do_copy of action.c refuse a destination inside the source, but not one that
    contains it.  Here is what becomes of the source then: exactly when every copy leaves it
    alone, and when a move can lose a file of it. */
module ActionOverlap {
  import opened Basics
  import opened FileTree
  import opened ActionWorld
  import opened ActionConflict
  import opened ActionAuto
  import opened ActionSteps
  import opened ActionCopy
  import Move = ActionMove

  // ----- runs that come to an end, and go down a given way first

  /** Every directory is listed in full. */
  ghost predicate ListsAll(c: Chance) {
    forall dir: Path, s: set<Name> :: Lists(c.order(dir, s), s)
  }

  /** On the way from `src` down `way`, the next step comes first. */
  ghost predicate WayFirst(c: Chance, src: Path, way: Path) {
    forall j: nat, s: set<Name> :: j < |way| && way[j] in s ==>
      c.order(src + way[..j], s) != [] && c.order(src + way[..j], s)[0] == way[j]
  }

  ghost function InSomeOrder(s: set<Name>): (names: seq<Name>)
    ensures Lists(names, s)
  {
    if s == {} then []
    else
      var n :| n in s;
      var rest := InSomeOrder(s - {n});
      ListsMore(rest, s - {n}, n);
      assert s - {n} + {n} == s;
      rest + [n]
  }

  ghost function FirstOf(n: Name, s: set<Name>): (names: seq<Name>)
    requires n in s
    ensures Lists(names, s) && names[0] == n
  {
    var rest := InSomeOrder(s - {n});
    FirstLists(n, s, rest);
    [n] + rest
  }

  lemma FirstLists(n: Name, s: set<Name>, rest: seq<Name>)
    requires n in s && Lists(rest, s - {n})
    ensures Lists([n] + rest, s)
  {
    assert forall m :: m in s - {n} <==> m in (set x | x in rest);
    forall m ensures m in s <==> m in (set x | x in [n] + rest) {
      assert m in [n] + rest <==> m == n || m in rest;
      assert m == n || (m in s <==> m in s - {n});
    }
    assert forall i :: 0 < i <= |rest| ==> ([n] + rest)[i] == rest[i - 1] && rest[i - 1] in (set x | x in rest);
  }

  ghost function WayOrder(src: Path, way: Path, dir: Path, s: set<Name>): (names: seq<Name>)
    ensures Lists(names, s)
  {
    if Under(src, dir) && |dir| - |src| < |way| && way[|dir| - |src|] in s
    then FirstOf(way[|dir| - |src|], s) else InSomeOrder(s)
  }

  lemma SomeChance(src: Path, way: Path, unwritable: Path -> bool) returns (c: Chance)
    ensures ListsAll(c) && WayFirst(c, src, way) && c.unwritable == unwritable
  {
    c := Chance((dir, s) => WayOrder(src, way, dir, s), unwritable, p => 0);
    forall j: nat, s: set<Name> | j < |way| && way[j] in s
      ensures c.order(src + way[..j], s) != [] && c.order(src + way[..j], s)[0] == way[j]
    {
      assert |src + way[..j]| - |src| == j;
    }
  }

  lemma FirstName(c: Chance, f: FS, src: Path, way: Path, j: nat)
    requires ListsAll(c) && WayFirst(c, src, way) && j < |way| && src + way[..j + 1] in f
    ensures var dir := src + way[..j]; var names := c.order(dir, Listing(f, dir));
      && Lists(names, Listing(f, dir)) && names != [] && names[0] == way[j]
      && Child(dir, way[j]) == src + way[..j + 1]
  {
    var dir, next := src + way[..j], src + way[..j + 1];
    assert next == Child(dir, way[j]) && next != [] && Parent(next) == dir && Leaf(next) == way[j];
    assert way[j] in Listing(f, dir);
  }

  ghost predicate NoDeeper(f: FS, d: nat) {
    forall p :: p in f ==> |p| <= d
  }

  // ----- copying

  lemma {:induction false} CopyingEnds(c: Chance, f: FS, src: Path, dst: Path, policy: Policy, k: nat, d: nat)
    requires ListsAll(c) && |dst| <= |src| && NoDeeper(f, d) && k + |src| > d
    ensures Copying(c, f, src, dst, policy, k).Some? && NoDeeper(Copying(c, f, src, dst, policy, k).value, d)
    decreases k, 1, 0
  {
    hide Skips, Made;
    if !Skips(f, src, dst, policy) {
      SkipsNot(f, src, dst, policy);
      if IsDir(f, src) && IsDir(f, dst) {
        var names := c.order(src, Listing(f, src));
        CopyingAllEnds(c, f, src, dst, policy, names, k - 1, d);
      } else {
        var (g, made) := Made(c, f, src, dst);
        MadeDepth(c, f, src, dst, d);
        if made && IsDir(g, src) {
          CopyingAllEnds(c, g, src, dst, policy, c.order(src, Listing(g, src)), k - 1, d);
        }
      }
    }
  }

  lemma SkipsNot(f: FS, src: Path, dst: Path, policy: Policy)
    requires !Skips(f, src, dst, policy)
    ensures src in f && !Full(f, src, dst)
  {
  }

  lemma MadeDepth(c: Chance, f: FS, src: Path, dst: Path, d: nat)
    requires |dst| <= |src| && src in f && NoDeeper(f, d)
    ensures NoDeeper(Made(c, f, src, dst).0, d)
  {
  }

  lemma {:induction false} CopyingAllEnds(c: Chance, f: FS, src: Path, dst: Path, policy: Policy, names: seq<Name>,
                                          k: nat, d: nat)
    requires ListsAll(c) && |dst| <= |src| && NoDeeper(f, d) && k + |src| + 1 > d
    ensures CopyingAll(c, f, src, dst, policy, names, k).Some?
    ensures NoDeeper(CopyingAll(c, f, src, dst, policy, names, k).value, d)
    decreases k, 2, |names|
  {
    hide Copying;
    if names != [] {
      var x, y := Child(src, names[0]), Child(dst, names[0]);
      CopyingEnds(c, f, x, y, policy, k, d);
      CopyingAllEnds(c, Copying(c, f, x, y, policy, k).value, src, dst, policy, names[1..], k, d);
    }
  }

  /** A place where nothing can be created stays empty. */
  lemma {:induction false} StaysEmpty(c: Chance, f: FS, src: Path, dst: Path, policy: Policy, k: nat, q: Path)
    requires c.unwritable(q) && q !in f && Copying(c, f, src, dst, policy, k).Some?
    ensures q !in Copying(c, f, src, dst, policy, k).value
    decreases k, 1, 0
  {
    hide Skips;
    if !Skips(f, src, dst, policy) {
      if IsDir(f, src) && IsDir(f, dst) {
        StaysEmptyAll(c, f, src, dst, policy, c.order(src, Listing(f, src)), k - 1, q);
      } else {
        var (g, made) := Made(c, f, src, dst);
        assert q !in g;
        if made && IsDir(g, src) {
          StaysEmptyAll(c, g, src, dst, policy, c.order(src, Listing(g, src)), k - 1, q);
        }
      }
    }
  }

  lemma {:induction false} StaysEmptyAll(c: Chance, f: FS, src: Path, dst: Path, policy: Policy, names: seq<Name>,
                                         k: nat, q: Path)
    requires c.unwritable(q) && q !in f && CopyingAll(c, f, src, dst, policy, names, k).Some?
    ensures q !in CopyingAll(c, f, src, dst, policy, names, k).value
    decreases k, 2, |names|
  {
    hide Copying;
    if names != [] {
      var x, y := Child(src, names[0]), Child(dst, names[0]);
      StaysEmpty(c, f, x, y, policy, k, q);
      StaysEmptyAll(c, Copying(c, f, x, y, policy, k).value, src, dst, policy, names[1..], k, q);
    }
  }

  /** Where everything can be created, nothing goes missing. */
  lemma {:induction false} StaysThere(c: Chance, f: FS, src: Path, dst: Path, policy: Policy, k: nat)
    requires (forall p :: !c.unwritable(p)) && WellFormed(f) && |dst| < |src| && dst != []
    requires Copying(c, f, src, dst, policy, k).Some?
    ensures WellFormed(Copying(c, f, src, dst, policy, k).value)
    ensures f.Keys <= Copying(c, f, src, dst, policy, k).value.Keys
    decreases k, 1, 0
  {
    hide Skips, WellFormed, Made;
    if !Skips(f, src, dst, policy) {
      SkipsNot(f, src, dst, policy);
      if IsDir(f, src) && IsDir(f, dst) {
        StaysThereAll(c, f, src, dst, policy, c.order(src, Listing(f, src)), k - 1);
      } else {
        var (g, made) := Made(c, f, src, dst);
        MadeThere(c, f, src, dst);
        if made && IsDir(g, src) {
          StaysThereAll(c, g, src, dst, policy, c.order(src, Listing(g, src)), k - 1);
        }
      }
    }
  }

  lemma MadeThere(c: Chance, f: FS, src: Path, dst: Path)
    requires !c.unwritable(dst) && WellFormed(f) && |dst| < |src| && dst != []
    requires src in f && !Full(f, src, dst) && !(IsDir(f, src) && IsDir(f, dst))
    ensures WellFormed(Made(c, f, src, dst).0) && f.Keys <= Made(c, f, src, dst).0.Keys
    ensures IsDir(f, Parent(dst)) ==> dst in Made(c, f, src, dst).0
  {
    var f1 := f - {dst};
    if dst in f { RemoveWellFormed(f, dst); } else { assert f1 == f; }
    if IsDir(f1, Parent(dst)) { AddWellFormed(f1, dst, Copied(c, f1[src], dst)); }
  }

  lemma {:induction false} StaysThereAll(c: Chance, f: FS, src: Path, dst: Path, policy: Policy, names: seq<Name>,
                                         k: nat)
    requires (forall p :: !c.unwritable(p)) && WellFormed(f) && |dst| < |src| && dst != []
    requires CopyingAll(c, f, src, dst, policy, names, k).Some?
    ensures WellFormed(CopyingAll(c, f, src, dst, policy, names, k).value)
    ensures f.Keys <= CopyingAll(c, f, src, dst, policy, names, k).value.Keys
    decreases k, 2, |names|
  {
    hide Copying, WellFormed;
    if names != [] {
      var x, y := Child(src, names[0]), Child(dst, names[0]);
      StaysThere(c, f, x, y, policy, k);
      StaysThereAll(c, Copying(c, f, x, y, policy, k).value, src, dst, policy, names[1..], k);
    }
  }

  /** Below a source directory, on the way to its counterpart, there are only directories, and
      their counterparts are directories too. */
  ghost predicate MergesDown(f: FS, src: Path, dst: Path, way: Path) {
    forall j: nat :: j < |way| ==> IsDir(f, src + way[..j]) && IsDir(f, dst + way[..j])
  }

  /** What can be created where, for a run to leave its mark at `q`. */
  ghost predicate Marks(c: Chance, f: FS, q: Path) {
    if q in f then c.unwritable(q) else forall x :: !c.unwritable(x)
  }

  /** What a copy puts at `q`, or removes there. */
  ghost predicate Hit(c: Chance, f: FS, g: FS, q: Path) {
    if q in f then q !in g && c.unwritable(q) else q in g
  }

  lemma {:induction false} HitStays(c: Chance, f: FS, g: FS, src: Path, dst: Path, policy: Policy, names: seq<Name>,
                                    k: nat, q: Path)
    requires Hit(c, f, g, q) && (q !in f ==> (forall p :: !c.unwritable(p)) && WellFormed(g))
    requires |dst| < |src| && dst != [] && CopyingAll(c, g, src, dst, policy, names, k).Some?
    ensures Hit(c, f, CopyingAll(c, g, src, dst, policy, names, k).value, q)
    ensures q !in f ==> WellFormed(CopyingAll(c, g, src, dst, policy, names, k).value)
  {
    hide WellFormed, CopyingAll;
    if q in f {
      StaysEmptyAll(c, g, src, dst, policy, names, k, q);
    } else {
      StaysThereAll(c, g, src, dst, policy, names, k);
    }
  }

  /** The entry at the end of the way is copied, while everything is still as it was. */
  lemma HitFirst(c: Chance, f: FS, p: Path, q: Path, k: nat)
    requires WellFormed(f) && p in f && |q| < |p| && q != [] && IsDir(f, Parent(q))
    requires !(IsDir(f, p) && IsDir(f, q)) && !Full(f, p, q)
    requires Marks(c, f, q)
    requires Copying(c, f, p, q, ReplaceAll, k).Some?
    ensures var g := Copying(c, f, p, q, ReplaceAll, k).value; Hit(c, f, g, q) && (q !in f ==> WellFormed(g))
  {
    hide WellFormed;
    if q in f {
      assert !Made(c, f, p, q).1;
    } else {
      MadeThere(c, f, p, q);
      StaysThere(c, f, p, q, ReplaceAll, k);
      var (g, made) := Made(c, f, p, q);
      if made && IsDir(g, p) {
        StaysThereAll(c, g, p, q, ReplaceAll, c.order(p, Listing(g, p)), k - 1);
      }
    }
  }

  lemma {:induction false} HitDown(c: Chance, f: FS, src: Path, dst: Path, way: Path, j: nat, k: nat)
    requires WellFormed(f) && ListsAll(c) && WayFirst(c, src, way)
    requires j <= |way| && |dst| < |src| && dst != [] && Intrudes(f, src, dst, way) && Marks(c, f, dst + way)
    requires Copying(c, f, src + way[..j], dst + way[..j], ReplaceAll, k).Some?
    ensures var g, q := Copying(c, f, src + way[..j], dst + way[..j], ReplaceAll, k).value, dst + way;
      Hit(c, f, g, q) && (q !in f ==> WellFormed(g))
    decreases |way| - j
  {
    hide WellFormed, ListsAll, WayFirst, Hit, Full, Copying, CopyingAll;
    var p, q := src + way[..j], dst + way[..j];
    if j == |way| {
      assert way[..j] == way && Parent(dst + way) == dst + way[..j - 1];
      HitFirst(c, f, p, q, k);
    } else {
      if j + 1 == |way| { assert way[..j + 1] == way; }
      var names := c.order(p, Listing(f, p));
      CopyDown(c, f, src, dst, way, j, k);
      HitDown(c, f, src, dst, way, j + 1, k - 1);
      var g := Copying(c, f, src + way[..j + 1], dst + way[..j + 1], ReplaceAll, k - 1).value;
      HitStays(c, f, g, p, q, ReplaceAll, names[1..], k - 1, dst + way);
    }
  }

  lemma CopyDown(c: Chance, f: FS, src: Path, dst: Path, way: Path, j: nat, k: nat)
    requires ListsAll(c) && WayFirst(c, src, way) && MergesDown(f, src, dst, way)
    requires j < |way| && src + way[..j + 1] in f
    requires Copying(c, f, src + way[..j], dst + way[..j], ReplaceAll, k).Some?
    ensures k > 0 && Copying(c, f, src + way[..j + 1], dst + way[..j + 1], ReplaceAll, k - 1).Some?
    ensures
      var p, q, next := src + way[..j], dst + way[..j],
                        Copying(c, f, src + way[..j + 1], dst + way[..j + 1], ReplaceAll, k - 1);
      var names := c.order(p, Listing(f, p));
      && names != []
      && Copying(c, f, p, q, ReplaceAll, k) == CopyingAll(c, next.value, p, q, ReplaceAll, names[1..], k - 1)
  {
    hide Skips, ListsAll, WayFirst, Lists;
    var p, q := src + way[..j], dst + way[..j];
    assert IsDir(f, p) && IsDir(f, q);
    FirstName(c, f, src, way, j);
    NotSkipped(f, p, q);
    assert Child(q, way[j]) == dst + way[..j + 1];
    assert Copying(c, f, p, q, ReplaceAll, k) == CopyingInto(c, f, p, q, ReplaceAll, k);
    assert CopyingInto(c, f, p, q, ReplaceAll, k)
      == CopyingAll(c, f, p, q, ReplaceAll, c.order(p, Listing(f, p)), k - 1);
  }

  lemma NotSkipped(f: FS, src: Path, dst: Path)
    requires IsDir(f, src)
    ensures !Skips(f, src, dst, ReplaceAll)
  {
  }

  /** The copy comes this way to an entry that it puts into the source itself. */
  ghost predicate Intrudes(f: FS, src: Path, dst: Path, way: Path) {
    && 0 < |way| && MergesDown(f, src, dst, way) && src + way in f && Under(src, dst + way)
    && !(IsDir(f, src + way) && IsDir(f, dst + way)) && !Full(f, src + way, dst + way)
  }

  /** What a copy would put into the source: the shortest way to something of the kind. */
  lemma {:induction false} Intrusion(f: FS, src: Path, dst: Path, p: Path) returns (way: Path)
    requires WellFormed(f) && Over(src, dst) && p in f && Under(src, p) && Under(src, Rebase(p, src, dst))
    requires var q := Rebase(p, src, dst); !(IsDir(f, q) && (IsDir(f, p) || Listing(f, q) != {}))
    ensures Intrudes(f, src, dst, way)
    decreases |p|
  {
    var q := Rebase(p, src, dst);
    OverCounterpart(src, dst, p);
    Ancestors(f, src, p);
    var up := Parent(p);
    assert p != src;
    ListingComplete(f, src, p);
    assert q != src;
    assert Under(src, up) && Rebase(up, src, dst) == Parent(q) && Under(src, Parent(q));
    Ancestors(f, up, p);
    if IsDir(f, Parent(q)) {
      way := p[|src|..];
      assert src + way == p && dst + way == q;
      forall j: nat | j < |way| ensures IsDir(f, src + way[..j]) && IsDir(f, dst + way[..j]) {
        Ancestors(f, src + way[..j], p);
        Ancestors(f, dst + way[..j], Parent(q));
      }
    } else {
      way := Intrusion(f, src, dst, up);
    }
  }

  /** If the way to it is taken first, the source changes there. */
  lemma IntruderStays(c: Chance, f: FS, src: Path, dst: Path, way: Path, k: nat)
    requires WellFormed(f) && |dst| < |src| && dst != [] && Intrudes(f, src, dst, way)
    requires ListsAll(c) && WayFirst(c, src, way) && Marks(c, f, dst + way) && k > Depth(f)
    ensures Copying(c, f, src, dst, ReplaceAll, k).Some?
    ensures !Same(f, Copying(c, f, src, dst, ReplaceAll, k).value, dst + way)
  {
    assert forall x :: x in f ==> x in f.Keys;
    CopyingEnds(c, f, src, dst, ReplaceAll, k, Depth(f));
    assert src + way[..0] == src && dst + way[..0] == dst;
    HitDown(c, f, src, dst, way, 0, k);
  }

  /** A copy that is not safe changes the source in some run. */
  lemma CopyChangesSource(f: FS, src: Path, dst: Path) returns (c: Chance, k: nat, q: Path)
    requires WellFormed(f) && Over(src, dst) && dst != [] && src in f && !NothingToAdd(f, src, dst)
    ensures Copying(c, f, src, dst, ReplaceAll, k).Some?
    ensures Under(src, q) && !Same(f, Copying(c, f, src, dst, ReplaceAll, k).value, q)
  {
    var p :| p in f && Under(src, p) && Under(src, Rebase(p, src, dst)) &&
      var q := Rebase(p, src, dst); !(IsDir(f, q) && (IsDir(f, p) || Listing(f, q) != {}));
    var way := Intrusion(f, src, dst, p);
    q := dst + way;
    var there := q in f;
    c := SomeChance(src, way, x => there && x == q);
    k := Depth(f) + 1;
    IntruderStays(c, f, src, dst, way, k);
  }

  /** The run of do_copy2 itself. */
  method CopyIntruder(w: World, path: Path, dest: Path, ghost way: Path)
    requires WellFormed(w.fs) && path != [] && Automatic(w) && w.policy == ReplaceAll
    requires Over(path, w.MakeDestPath(path, dest)) && Intrudes(w.fs, path, w.MakeDestPath(path, dest), way)
    requires ListsAll(w.chance) && WayFirst(w.chance, path, way)
    requires Marks(w.chance, w.fs, w.MakeDestPath(path, dest) + way)
    modifies w
    ensures !Same(old(w.fs), w.fs, old(w.MakeDestPath(path, dest)) + way)
  {
    hide Copying, Overlay, Decided, CopySafe, WellFormed, Intrudes, Marks, Depth, ListsAll, WayFirst, PolicyRefuses;
    ghost var f, dst := w.fs, w.MakeDestPath(path, dest);
    IntruderStays(w.chance, f, path, dst, way, Depth(f) + 1);
    ghost var declined, broken, no, es := DoCopy2(w, path, dest);
    assert w.fs == Copying(w.chance, f, path, dst, ReplaceAll, Depth(f) + 1).value;
  }

  ghost predicate KeepsSource(f: FS, g: FS, src: Path) {
    forall p :: Under(src, p) ==> Same(f, g, p)
  }

  lemma SafeStill(f: FS, g: FS, top: Path, to: Path)
    requires CopySafe(f, top, to) && KeepsSource(f, g, top)
    ensures CopySafe(g, top, to)
  {
    if Over(top, to) {
      forall p | p in g && Under(top, p) && Under(top, Rebase(p, top, to))
        ensures var q := Rebase(p, top, to); IsDir(g, q) && (IsDir(g, p) || Listing(g, q) != {})
      {
        ListingSame(f, g, top, Rebase(p, top, to));
      }
    }
  }

  /** A safe copy leaves its source alone, one entry at a time. */
  lemma {:induction false} SafeKeeps(c: Chance, f: FS, top: Path, to: Path, p: Path, policy: Policy, k: nat)
    requires CopySafe(f, top, to) && Under(top, p) && Copying(c, f, p, Rebase(p, top, to), policy, k).Some?
    ensures KeepsSource(f, Copying(c, f, p, Rebase(p, top, to), policy, k).value, top)
    decreases k, 1, 0
  {
    hide Skips, Made, CopySafe, KeepsSource;
    var q := Rebase(p, top, to);
    SourceKept(f, top);
    if !Skips(f, p, q, policy) {
      SkipsNot(f, p, q, policy);
      if IsDir(f, p) && IsDir(f, q) {
        SafeKeepsAll(c, f, top, to, p, policy, c.order(p, Listing(f, p)), k - 1);
      } else {
        var (g, made) := Made(c, f, p, q);
        SafeMade(c, f, top, to, p);
        if made && IsDir(g, p) {
          SafeStill(f, g, top, to);
          SafeKeepsAll(c, g, top, to, p, policy, c.order(p, Listing(g, p)), k - 1);
          SourceStillKept(f, g, Copying(c, f, p, q, policy, k).value, top);
        }
      }
    }
  }

  lemma SourceKept(f: FS, top: Path)
    ensures KeepsSource(f, f, top)
  {
  }

  lemma SourceStillKept(f: FS, g: FS, h: FS, top: Path)
    requires KeepsSource(f, g, top) && KeepsSource(g, h, top)
    ensures KeepsSource(f, h, top)
  {
  }

  lemma SafeMade(c: Chance, f: FS, top: Path, to: Path, p: Path)
    requires CopySafe(f, top, to) && Under(top, p) && p in f
    requires var q := Rebase(p, top, to); !Full(f, p, q) && !(IsDir(f, p) && IsDir(f, q))
    ensures KeepsSource(f, Made(c, f, p, Rebase(p, top, to)).0, top)
  {
    var q := Rebase(p, top, to);
    if Apart(top, to) { ApartAt(to, top, q); }
    assert !Under(top, q);
  }

  lemma {:induction false} SafeKeepsAll(c: Chance, f: FS, top: Path, to: Path, p: Path, policy: Policy,
                                        names: seq<Name>, k: nat)
    requires CopySafe(f, top, to) && Under(top, p)
    requires CopyingAll(c, f, p, Rebase(p, top, to), policy, names, k).Some?
    ensures KeepsSource(f, CopyingAll(c, f, p, Rebase(p, top, to), policy, names, k).value, top)
    decreases k, 2, |names|
  {
    hide Copying, CopySafe, KeepsSource;
    SourceKept(f, top);
    if names != [] {
      var x := Child(p, names[0]);
      UnderTrans(top, p, x);
      assert Rebase(x, top, to) == Child(Rebase(p, top, to), names[0]);
      SafeKeeps(c, f, top, to, x, policy, k);
      var g := Copying(c, f, x, Rebase(x, top, to), policy, k).value;
      SafeStill(f, g, top, to);
      SafeKeepsAll(c, g, top, to, p, policy, names[1..], k);
      SourceStillKept(f, g, CopyingAll(c, f, p, Rebase(p, top, to), policy, names, k).value, top);
    }
  }

  /** When a copy leaves its source alone, whatever the policy and whatever is left to chance. */
  lemma CopyKeepsSourceIff(f: FS, src: Path, dst: Path)
    requires WellFormed(f) && src in f && dst != [] && !Under(src, dst)
    ensures CopySafe(f, src, dst) <==>
              forall c: Chance, policy: Policy, k: nat :: Copying(c, f, src, dst, policy, k).Some? ==>
                KeepsSource(f, Copying(c, f, src, dst, policy, k).value, src)
  {
    assert Rebase(src, src, dst) == dst;
    if CopySafe(f, src, dst) {
      forall c: Chance, policy: Policy, k: nat | Copying(c, f, src, dst, policy, k).Some?
        ensures KeepsSource(f, Copying(c, f, src, dst, policy, k).value, src)
      {
        SafeKeeps(c, f, src, dst, src, policy, k);
      }
    } else {
      ApartOrOver(src, dst);
      var c, k, q := CopyChangesSource(f, src, dst);
    }
  }

  // ----- moving

  lemma {:induction false} MovingEnds(c: Chance, f: FS, src: Path, dst: Path, policy: Policy, k: nat, d: nat)
    requires ListsAll(c) && |dst| <= |src| && NoDeeper(f, d) && k + |src| > d
    ensures Moving(c, f, src, dst, policy, k).Some? && NoDeeper(Moving(c, f, src, dst, policy, k).value, d)
    decreases k, 1, 0
  {
    hide Skips, Shifted;
    if !Skips(f, src, dst, policy) {
      SkipsNot(f, src, dst, policy);
      if IsDir(f, src) && IsDir(f, dst) {
        var names := c.order(src, Listing(f, src));
        MovingAllEnds(c, f, src, dst, policy, names, k - 1, d);
      } else {
        ShiftedDepth(f, src, dst, d);
      }
    }
  }

  lemma ShiftedDepth(f: FS, src: Path, dst: Path, d: nat)
    requires |dst| <= |src| && NoDeeper(f, d)
    ensures NoDeeper(Shifted(f, src, dst), d)
  {
  }

  lemma {:induction false} MovingAllEnds(c: Chance, f: FS, src: Path, dst: Path, policy: Policy, names: seq<Name>,
                                         k: nat, d: nat)
    requires ListsAll(c) && |dst| <= |src| && NoDeeper(f, d) && k + |src| + 1 > d
    ensures MovingAll(c, f, src, dst, policy, names, k).Some?
    ensures NoDeeper(MovingAll(c, f, src, dst, policy, names, k).value, d)
    decreases k, 2, |names|
  {
    hide Moving;
    if names != [] {
      var x, y := Child(src, names[0]), Child(dst, names[0]);
      MovingEnds(c, f, x, y, policy, k, d);
      MovingAllEnds(c, Moving(c, f, x, y, policy, k).value, src, dst, policy, names[1..], k, d);
    }
  }

  /** Such a run takes the steps of a move. */
  lemma {:induction false} MovingSteps(c: Chance, f: FS, src: Path, dst: Path, policy: Policy, k: nat)
    requires WellFormed(f) && !Under(src, dst) && dst != [] && Moving(c, f, src, dst, policy, k).Some?
    ensures var g := Moving(c, f, src, dst, policy, k).value;
      WellFormed(g) && Steps(f.Keys, f, g, src, dst) && SomeSteps(f, g, src, dst)
    decreases k, 1, 0
  {
    hide Skips, Shifted, WellFormed, Steps;
    NoSteps(f.Keys, f, src, dst);
    if !Skips(f, src, dst, policy) {
      SkipsNot(f, src, dst, policy);
      if IsDir(f, src) && IsDir(f, dst) {
        var names := c.order(src, Listing(f, src));
        assert Listing(f, src) - {} == Listing(f, src);
        MovingAllTaken(c, f, f, src, dst, policy, {}, names, k - 1);
        var g := MovingAll(c, f, src, dst, policy, names, k - 1).value;
        if IsDir(g, src) && Listing(g, src) == {} {
          StepsEmptied(f, g, src, dst);
          RemoveWellFormed(g, src);
        }
      } else {
        ShiftedSteps(f, src, dst);
      }
    }
  }

  lemma ShiftedSteps(f: FS, src: Path, dst: Path)
    requires WellFormed(f) && dst != [] && src in f && src != dst
    requires !Full(f, src, dst) && !(IsDir(f, src) && IsDir(f, dst))
    ensures WellFormed(Shifted(f, src, dst)) && Steps(f.Keys, f, Shifted(f, src, dst), src, dst)
  {
    hide Renamed, Steps;
    var f1 := f - {dst};
    NoSteps(f.Keys, f, src, dst);
    if dst in f {
      RemoveWellFormed(f, dst);
      StepsOne(f.Keys, f, f1, src, dst);
    } else {
      assert f1 == f;
    }
    if Shifted(f, src, dst) != f1 {
      RenamedWellFormed(f1, src, dst);
      StepsRenamed(f, f1, src, dst);
    }
  }

  /** So does the rest of a loop that has begun in the state `o`. */
  lemma {:induction false} MovingAllTaken(c: Chance, o: FS, f: FS, src: Path, dst: Path, policy: Policy,
                                          done: set<Name>, names: seq<Name>, k: nat)
    requires WellFormed(f) && !Under(src, dst) && MovingAll(c, f, src, dst, policy, names, k).Some?
    requires src in o && Lists(names, Listing(o, src) - done)
    requires Steps(o.Keys, o, f, src, dst) && Move.WayBack(o, f, src, dst, done)
    ensures var g := MovingAll(c, f, src, dst, policy, names, k).value;
      WellFormed(g) && Steps(o.Keys, o, g, src, dst)
    decreases k, 2, |names|
  {
    hide Moving, WellFormed, Steps, Move.WayBack, Lists, Listing;
    if names != [] {
      var n := names[0];
      var x, y := Child(src, n), Child(dst, n);
      ListsNext(names, Listing(o, src) - done);
      assert Listing(o, src) - done - {n} == Listing(o, src) - (done + {n});
      ChildNotInside(src, dst, n);
      MovingSteps(c, f, x, y, policy, k);
      var g := Moving(c, f, x, y, policy, k).value;
      Move.ChildTaken(o, f, g, src, dst, done, n);
      MovingAllTaken(c, o, g, src, dst, policy, done + {n}, names[1..], k);
    }
  }

  lemma {:induction false} MovingAllSteps(c: Chance, f: FS, src: Path, dst: Path, policy: Policy, names: seq<Name>,
                                          k: nat)
    requires WellFormed(f) && !Under(src, dst) && MovingAll(c, f, src, dst, policy, names, k).Some?
    ensures var g := MovingAll(c, f, src, dst, policy, names, k).value; WellFormed(g) && SomeSteps(f, g, src, dst)
    decreases k, 2, |names|
  {
    hide Moving, WellFormed, SomeSteps;
    NoSteps({}, f, src, dst);
    if names != [] {
      var x, y := Child(src, names[0]), Child(dst, names[0]);
      ChildNotInside(src, dst, names[0]);
      MovingSteps(c, f, x, y, policy, k);
      var g := Moving(c, f, x, y, policy, k).value;
      MovingAllSteps(c, g, src, dst, policy, names[1..], k);
      SomeChild(f, g, src, dst, names[0]);
      SomeThen(f, g, MovingAll(c, f, src, dst, policy, names, k).value, src, dst);
    }
  }

  lemma ChildNotInside(src: Path, dst: Path, n: Name)
    requires !Under(src, dst)
    ensures !Under(Child(src, n), Child(dst, n)) && Child(dst, n) != []
  {
    ApartOrOver(src, dst);
    if Over(src, dst) { OverChildren(src, dst, n); } else { ApartChildren(src, dst, n); }
  }

  /** Another entry of the source has the file or link at `p` for its counterpart. */
  ghost predicate Clash(f: FS, src: Path, dst: Path, p: Path) {
    Over(src, dst) && Under(src, p) && p in f && !IsDir(f, p) && Again(src, dst) + p[|src|..] in f
  }

  /** From the source down to that entry. */
  function ClashWay(src: Path, dst: Path, p: Path): Path
    requires Over(src, dst) && Under(src, p)
  {
    src[|dst|..] + p[|src|..]
  }

  /** The only node of its kind. */
  ghost predicate Unique(f: FS, p: Path) {
    p in f && forall q :: q in f && f[q] == f[p] ==> q == p
  }

  lemma ClashMerges(f: FS, src: Path, dst: Path, p: Path)
    requires WellFormed(f) && Clash(f, src, dst, p)
    ensures var way := ClashWay(src, dst, p); MergesDown(f, src, dst, way) && src + way in f && dst + way == p
  {
    ClashEnds(src, dst, p);
    hide ClashWay, WellFormed;
    var way := ClashWay(src, dst, p);
    forall j: nat | j < |way| ensures IsDir(f, src + way[..j]) && IsDir(f, dst + way[..j]) {
      Ancestors(f, src + way[..j], src + way);
      Ancestors(f, dst + way[..j], p);
    }
  }

  lemma ClashEnds(src: Path, dst: Path, p: Path)
    requires Over(src, dst) && Under(src, p)
    ensures src + ClashWay(src, dst, p) == Again(src, dst) + p[|src|..] && dst + ClashWay(src, dst, p) == p
  {
    assert dst + src[|dst|..] == src;
  }

  lemma {:induction false} LostDown(c: Chance, f: FS, src: Path, dst: Path, way: Path, j: nat, k: nat)
    requires WellFormed(f) && Over(src, dst) && ListsAll(c) && WayFirst(c, src, way) && MergesDown(f, src, dst, way)
    requires j <= |way| && src + way in f && Unique(f, dst + way) && !IsDir(f, dst + way)
    requires Moving(c, f, src + way[..j], dst + way[..j], ReplaceAll, k).Some?
    ensures f[dst + way] !in Moving(c, f, src + way[..j], dst + way[..j], ReplaceAll, k).value.Values
    decreases |way| - j
  {
    hide ListsAll, WayFirst, Shifted, WellFormed, Steps;
    var p, q := src + way[..j], dst + way[..j];
    if j == |way| {
      assert way[..j] == way;
      ShiftedValues(f, p, q);
    } else {
      hide Moving, MovingAll;
      if j + 1 == |way| { assert way[..j + 1] == way; }
      MoveDown(c, f, src, dst, way, j, k);
      LostDown(c, f, src, dst, way, j + 1, k - 1);
      var g := Moving(c, f, src + way[..j + 1], dst + way[..j + 1], ReplaceAll, k - 1).value;
      WayNotInside(src, dst, way, j);
      WayNotInside(src, dst, way, j + 1);
      MovingSteps(c, f, src + way[..j + 1], dst + way[..j + 1], ReplaceAll, k - 1);
      var rest := c.order(p, Listing(f, p))[1..];
      MovingAllSteps(c, g, p, q, ReplaceAll, rest, k - 1);
      NothingNew(g, MovingAll(c, g, p, q, ReplaceAll, rest, k - 1).value, p, q);
    }
  }

  /** What a place that is cleared for a rename held is gone. */
  lemma ShiftedValues(f: FS, src: Path, dst: Path)
    ensures Shifted(f, src, dst).Values <= (f - {dst}).Values
  {
    var f1, g := f - {dst}, Shifted(f, src, dst);
    if g != f1 {
      forall q | q in g ensures g[q] in f1.Values {
        RenamedAt(f1, src, dst, q);
      }
    }
  }

  lemma WayNotInside(src: Path, dst: Path, way: Path, j: nat)
    requires Over(src, dst) && j <= |way|
    ensures !Under(src + way[..j], dst + way[..j]) && (j > 0 ==> dst + way[..j] != [])
  {
  }

  lemma MoveDown(c: Chance, f: FS, src: Path, dst: Path, way: Path, j: nat, k: nat)
    requires ListsAll(c) && WayFirst(c, src, way) && MergesDown(f, src, dst, way)
    requires j < |way| && src + way[..j + 1] in f
    requires Moving(c, f, src + way[..j], dst + way[..j], ReplaceAll, k).Some?
    ensures k > 0 && Moving(c, f, src + way[..j + 1], dst + way[..j + 1], ReplaceAll, k - 1).Some?
    ensures
      var p, q, next := src + way[..j], dst + way[..j],
                        Moving(c, f, src + way[..j + 1], dst + way[..j + 1], ReplaceAll, k - 1);
      var names := c.order(p, Listing(f, p));
      && Lists(names, Listing(f, p)) && names != [] && names[0] == way[j]
      && MovingAll(c, next.value, p, q, ReplaceAll, names[1..], k - 1).Some?
      && Moving(c, f, p, q, ReplaceAll, k).value
           == Emptied(MovingAll(c, next.value, p, q, ReplaceAll, names[1..], k - 1).value, p)
  {
    hide Skips, ListsAll, WayFirst, Lists, Emptied;
    var p, q := src + way[..j], dst + way[..j];
    assert IsDir(f, p) && IsDir(f, q);
    FirstName(c, f, src, way, j);
    NotSkipped(f, p, q);
    assert Child(q, way[j]) == dst + way[..j + 1];
    assert Moving(c, f, p, q, ReplaceAll, k) == MovingInto(c, f, p, q, ReplaceAll, k);
  }

  /** A file or link that is in the way of another entry of the source is lost if the way to
      that entry is taken first. */
  lemma ClashLosesFile(c: Chance, f: FS, src: Path, dst: Path, p: Path, k: nat)
    requires WellFormed(f) && Clash(f, src, dst, p) && Unique(f, p)
    requires ListsAll(c) && WayFirst(c, src, ClashWay(src, dst, p)) && k > Depth(f)
    ensures Moving(c, f, src, dst, ReplaceAll, k).Some?
    ensures var g := Moving(c, f, src, dst, ReplaceAll, k).value; forall q :: q in g ==> g[q] != f[p]
  {
    var way := ClashWay(src, dst, p);
    ClashMerges(f, src, dst, p);
    assert forall x :: x in f ==> x in f.Keys;
    MovingEnds(c, f, src, dst, ReplaceAll, k, Depth(f));
    assert src + way[..0] == src && dst + way[..0] == dst;
    LostDown(c, f, src, dst, way, 0, k);
  }

  /** The run of do_move2 itself. */
  method MoveClash(w: World, path: Path, dest: Path, ghost p: Path)
    requires WellFormed(w.fs) && path != [] && Automatic(w) && w.policy == ReplaceAll
    requires Clash(w.fs, path, w.MakeDestPath(path, dest), p) && Unique(w.fs, p)
    requires ListsAll(w.chance) && WayFirst(w.chance, path, ClashWay(path, w.MakeDestPath(path, dest), p))
    modifies w
    ensures forall q :: q in w.fs ==> w.fs[q] != old(w.fs)[p]
  {
    hide Moving, Move.Moved, Move.Complete, Move.Obeyed, Move.MoveSafe, WellFormed, Unique, Depth, ListsAll, WayFirst;
    ghost var f, dst := w.fs, w.MakeDestPath(path, dest);
    ClashLosesFile(w.chance, f, path, dst, p, Depth(f) + 1);
    ghost var no, es := Move.DoMove2(w, path, dest);
    assert w.fs == Moving(w.chance, f, path, dst, ReplaceAll, Depth(f) + 1).value;
  }

  // ----- two whole runs

  const DIR := Node(Directory, 0)
  const ONE := Node(File(1), 0)
  const TWO := Node(File(2), 0)

  /** /p/p/p/f, with or without /p/p/f */
  function Nested(clash: bool): FS {
    var f := map[[] := DIR, ["p"] := DIR, ["p", "p"] := DIR, ["p", "p", "p"] := DIR, ["p", "p", "p", "f"] := TWO];
    if clash then f[["p", "p", "f"] := ONE] else f
  }

  lemma NestedWellFormed(clash: bool)
    ensures WellFormed(Nested(clash))
  {
    var a, b, c, d, e: Path := ["p"], ["p", "p"], ["p", "p", "p"], ["p", "p", "p", "f"], ["p", "p", "f"];
    assert Parent(a) == [] && Parent(b) == a && Parent(c) == b && Parent(d) == c && Parent(e) == b;
  }

  lemma NestedClash()
    ensures Clash(Nested(true), ["p", "p"], ["p"], ["p", "p", "f"]) && Unique(Nested(true), ["p", "p", "f"])
    ensures ClashWay(["p", "p"], ["p"], ["p", "p", "f"]) == ["p", "f"]
  {
    var src, p: Path := ["p", "p"], ["p", "p", "f"];
    assert p[2] == "f" && src[1] == "p" && "p"[0] == 'p' && "f"[0] == 'f';
    assert src[1..] + p[2..] == ["p", "f"];
    assert Again(src, ["p"]) + p[2..] == ["p", "p", "p", "f"];
  }

  lemma NestedIntrudes()
    ensures Intrudes(Nested(false), ["p", "p"], ["p"], ["p", "f"])
    ensures ["p"] + ["p", "f"] == ["p", "p", "f"] && ["p", "p", "f"] !in Nested(false)
  {
    var f, src, dst, way: Path := Nested(false), ["p", "p"], ["p"], ["p", "f"];
    assert src[1] == "p" && "p"[0] == 'p' && "f"[0] == 'f';
    assert src + way == ["p", "p", "p", "f"] && dst + way == ["p", "p", "f"];
    assert dst + way !in f by { assert ["p", "p", "p"][2] == "p" && ["p", "p", "f"][2] == "f"; }
    forall j: nat | j < |way| ensures IsDir(f, src + way[..j]) && IsDir(f, dst + way[..j]) {
      if j == 0 {
        assert src + way[..j] == src && dst + way[..j] == dst;
      } else {
        assert src + way[..j] == ["p", "p", "p"] && dst + way[..j] == src;
      }
    }
  }

  method NewWorld(f: FS, chance: Chance) returns (w: World)
    ensures fresh(w) && w.fs == f && w.chance == chance && w.policy == ReplaceAll && w.actionLeaf == None
    ensures Automatic(w)
  {
    w := new World(f, ReplaceAll, None, Options(true, true, true, true, false, false, false), [], false, {}, chance);
  }

  /** Moving /p/p to / merges it into /p.  If its child /p/p/p comes first, that is merged into
      /p/p, and the file /p/p/f, which is being moved too, is removed to make room for
      /p/p/p/f. */
  method OverlapLosesSource(chance: Chance) returns (w: World)
    requires ListsAll(chance) && WayFirst(chance, ["p", "p"], ["p", "f"])
    ensures forall q :: q in w.fs ==> w.fs[q] != ONE
  {
    var path, p: Path := ["p", "p"], ["p", "p", "f"];
    hide Clash, Unique, ClashWay, ListsAll, WayFirst, Nested;
    w := NewWorld(Nested(true), chance);
    NestedWellFormed(true);
    NestedClash();
    assert w.MakeDestPath(path, []) == ["p"];
    MoveClash(w, path, [], p);
    NestedOne();
  }

  lemma NestedOne()
    ensures ["p", "p", "f"] in Nested(true) && Nested(true)[["p", "p", "f"]] == ONE
  {
  }

  /** Copying /p/p to / puts /p/p/f into the directory that is being copied. */
  method OverlapChangesSource(chance: Chance) returns (w: World)
    requires ListsAll(chance) && WayFirst(chance, ["p", "p"], ["p", "f"]) && forall q :: !chance.unwritable(q)
    ensures ["p", "p", "f"] !in Nested(false) && ["p", "p", "f"] in w.fs
  {
    var path, way: Path := ["p", "p"], ["p", "f"];
    hide Intrudes, ListsAll, WayFirst, Nested;
    w := NewWorld(Nested(false), chance);
    NestedWellFormed(false);
    NestedIntrudes();
    assert w.MakeDestPath(path, []) == ["p"];
    CopyIntruder(w, path, [], way);
  }
}
