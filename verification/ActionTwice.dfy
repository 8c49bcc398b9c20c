/** A file of the source whose counterpart lies in the source can be moved twice. */
module ActionTwice {
  import opened Basics
  import opened FileTree
  import opened ActionWorld
  import opened ActionConflict
  import opened ActionAuto
  import opened ActionSteps
  import opened ActionOverlap
  import Move = ActionMove

  /** The counterpart of the file or link at `p` is in the source, in a place that takes it
      and that is moved on as part of a directory, or as an empty directory, of which the
      destination has nothing yet. */
  ghost predicate MovesOn(f: FS, src: Path, dst: Path, p: Path) {
    Over(src, dst) && dst != [] && Under(Again(src, dst), p) && p != Again(src, dst) && p in f && !IsDir(f, p) &&
    var q, n := Rebase(p, src, dst), p[|Again(src, dst)|];
    && n != src[|dst|] && Child(dst, n) !in f
    && if q in f then IsDir(f, q) && Listing(f, q) == {} else Parent(q) != src && IsDir(f, Parent(q))
  }

  /** The counterpart, what the file is below in the source and what its counterpart is below. */
  lemma Places(src: Path, dst: Path, p: Path)
    requires Over(src, dst) && Under(Again(src, dst), p) && p != Again(src, dst)
    ensures var q, n, way := Rebase(p, src, dst), p[|Again(src, dst)|], p[|src|..];
      && Under(src, p) && src + way == p && dst + way == q && way[0] == src[|dst|] && 0 < |way|
      && Under(Child(src, n), q) && q[|src|] == n
  {
    var a, s := Again(src, dst), src[|dst|..];
    assert a == src + s && src == dst + s;
    var v := p[|a|..];
    assert p == src + (s + v) && p[|src|..] == s + v;
    assert Rebase(p, src, dst) == dst + (s + v) == src + v;
  }

  lemma MovesOnMerges(f: FS, src: Path, dst: Path, p: Path)
    requires WellFormed(f) && MovesOn(f, src, dst, p)
    ensures var q, n, way := Rebase(p, src, dst), p[|Again(src, dst)|], p[|src|..];
      MergesDown(f, src, dst, way) && IsDir(f, Parent(q)) && Child(src, n) in f
  {
    Places(src, dst, p);
    var q, n, way := Rebase(p, src, dst), p[|Again(src, dst)|], p[|src|..];
    Ancestors(f, Parent(q), if q in f then q else Parent(q));
    forall j: nat | j < |way| ensures IsDir(f, src + way[..j]) && IsDir(f, dst + way[..j]) {
      Ancestors(f, src + way[..j], p);
      assert Under(dst + way[..j], Parent(q));
      Ancestors(f, dst + way[..j], Parent(q));
    }
    if q in f {
      Ancestors(f, Child(src, n), q);
    } else {
      assert Under(Child(src, n), Parent(q));
      Ancestors(f, Child(src, n), Parent(q));
    }
  }

  // ----- what other moves leave alone

  /** No entry in `names` has anything to do with `x`. */
  ghost predicate Aside(src: Path, dst: Path, names: seq<Name>, x: Path) {
    forall n :: n in names ==> !Under(Child(src, n), x) && !Under(Child(dst, n), x)
  }

  lemma {:induction false} AllFrame(c: Chance, f: FS, src: Path, dst: Path, names: seq<Name>, k: nat, x: Path)
    requires WellFormed(f) && !Under(src, dst) && MovingAll(c, f, src, dst, ReplaceAll, names, k).Some?
    requires Aside(src, dst, names, x)
    ensures Same(f, MovingAll(c, f, src, dst, ReplaceAll, names, k).value, x)
    decreases |names|
  {
    hide Moving, WellFormed, Steps, SomeSteps;
    if names != [] {
      var a, b := Child(src, names[0]), Child(dst, names[0]);
      assert names[0] in names;
      ChildNotInside(src, dst, names[0]);
      MovingSteps(c, f, a, b, ReplaceAll, k);
      var g := Moving(c, f, a, b, ReplaceAll, k).value;
      StepsFrame(f, g, a, b, x);
      assert forall n :: n in names[1..] ==> n in names;
      AllFrame(c, g, src, dst, names[1..], k, x);
    }
  }

  lemma RestAside(src: Path, dst: Path, names: seq<Name>, first: Name, x: Path)
    requires names != [] && (forall i, j :: 0 <= i < j < |names| ==> names[i] != names[j]) && names[0] == first
    requires forall n :: n != first ==> !Under(Child(src, n), x) && !Under(Child(dst, n), x)
    ensures Aside(src, dst, names[1..], x)
  {
  }

  // ----- first, the file is moved to its counterpart

  lemma FileArrives(c: Chance, f: FS, p: Path, q: Path, k: nat)
    requires WellFormed(f) && p in f && !IsDir(f, p) && Apart(p, q) && q != [] && IsDir(f, Parent(q))
    requires q in f ==> IsDir(f, q) && Listing(f, q) == {}
    requires Moving(c, f, p, q, ReplaceAll, k).Some?
    ensures var g := Moving(c, f, p, q, ReplaceAll, k).value; q in g && g[q] == f[p]
  {
    var f1 := f - {q};
    if q in f { RemoveWellFormed(f, q); } else { assert f1 == f; }
    NothingBelow(f1, q);
    assert !Full(f, p, q) && !Skips(f, p, q, ReplaceAll);
    assert IsDir(f1, Parent(q)) && Parent(q) != q;
    assert Shifted(f, p, q) == Renamed(f1, p, q);
    RenamedAt(f1, p, q, q);
    assert Rebase(q, q, p) == p && p in f1;
  }

  lemma {:induction false} ArrivesDown(c: Chance, f: FS, src: Path, dst: Path, p: Path, j: nat, k: nat)
    requires WellFormed(f) && ListsAll(c) && MovesOn(f, src, dst, p) && WayFirst(c, src, p[|src|..])
    requires 0 < j <= |p| - |src|
    requires var way := p[|src|..]; Moving(c, f, src + way[..j], dst + way[..j], ReplaceAll, k).Some?
    ensures var way, q := p[|src|..], Rebase(p, src, dst);
      var g := Moving(c, f, src + way[..j], dst + way[..j], ReplaceAll, k).value;
      q in g && g[q] == f[p]
    decreases |p| - |src| - j
  {
    hide ListsAll, WayFirst, WellFormed, Steps, SomeSteps, MergesDown, Lists, MovesOn, Moving, MovingAll;
    MovesOnIs(f, src, dst, p);
    Places(src, dst, p);
    var way, q := p[|src|..], Rebase(p, src, dst);
    MovesOnMerges(f, src, dst, p);
    var a, b := src + way[..j], dst + way[..j];
    if j == |way| {
      assert way[..j] == way;
      CounterpartApart(src, dst, p);
      FileArrives(c, f, p, q, k);
    } else {
      NextIsThere(f, src, dst, p, j);
      MoveDown(c, f, src, dst, way, j, k);
      ArrivesDown(c, f, src, dst, p, j + 1, k - 1);
      var g := Moving(c, f, src + way[..j + 1], dst + way[..j + 1], ReplaceAll, k - 1).value;
      WayNotInside(src, dst, way, j);
      WayNotInside(src, dst, way, j + 1);
      MovingSteps(c, f, src + way[..j + 1], dst + way[..j + 1], ReplaceAll, k - 1);
      var names := c.order(a, Listing(f, a));
      OnTheWay(src, dst, p, j);
      assert Aside(a, b, names[1..], q) by { DistinctNames(names, Listing(f, a)); RestAside(a, b, names, way[j], q); }
      AllFrame(c, g, a, b, names[1..], k - 1, q);
    }
  }

  lemma MovesOnIs(f: FS, src: Path, dst: Path, p: Path)
    requires MovesOn(f, src, dst, p)
    ensures Over(src, dst) && dst != [] && Under(Again(src, dst), p) && p != Again(src, dst) && p in f && !IsDir(f, p)
    ensures var q := Rebase(p, src, dst); q in f ==> IsDir(f, q) && Listing(f, q) == {}
    ensures p[|Again(src, dst)|] != src[|dst|] && Child(dst, p[|Again(src, dst)|]) !in f
  {
  }

  lemma DistinctNames(names: seq<Name>, s: set<Name>)
    requires Lists(names, s)
    ensures forall i, j :: 0 <= i < j < |names| ==> names[i] != names[j]
  {
  }

  lemma NextIsThere(f: FS, src: Path, dst: Path, p: Path, j: nat)
    requires WellFormed(f) && Under(src, p) && p in f && j < |p| - |src|
    ensures src + p[|src|..][..j + 1] in f
  {
    assert src + p[|src|..][..j + 1] == p[..|src| + j + 1];
    Ancestors(f, p[..|src| + j + 1], p);
  }

  lemma CounterpartApart(src: Path, dst: Path, p: Path)
    requires Over(src, dst) && Under(Again(src, dst), p) && p != Again(src, dst)
    requires p[|Again(src, dst)|] != src[|dst|]
    ensures Apart(p, Rebase(p, src, dst))
  {
    Places(src, dst, p);
    var q := Rebase(p, src, dst);
    assert q[|src|] != p[|src|];
  }

  /** The other entries on the way have nothing to do with the counterpart. */
  lemma OnTheWay(src: Path, dst: Path, p: Path, j: nat)
    requires Over(src, dst) && Under(Again(src, dst), p) && p != Again(src, dst) && 0 < j < |p| - |src|
    requires p[|Again(src, dst)|] != src[|dst|]
    ensures var way, q := p[|src|..], Rebase(p, src, dst); var a, b := src + way[..j], dst + way[..j];
      && q != a && forall n :: n != way[j] ==> !Under(Child(a, n), q) && !Under(Child(b, n), q)
  {
    Places(src, dst, p);
    var way, q := p[|src|..], Rebase(p, src, dst);
    var a, b := src + way[..j], dst + way[..j];
    assert a[|src|] == way[0] && q[|src|] != way[0];
    forall n | n != way[j] ensures !Under(Child(a, n), q) && !Under(Child(b, n), q) {
      assert Child(a, n)[|src|] == way[0];
      assert q[|dst| + j] == way[j] && Child(b, n)[|dst| + j] == n;
    }
  }

  // ----- then the directory that it has come to is moved on

  /** The file has arrived, and `n` is the name of what takes it further. */
  ghost predicate Waiting(h: FS, src: Path, dst: Path, q: Path, n: Name, node: Node) {
    WellFormed(h) && q in h && h[q] == node && Child(dst, n) !in h
  }

  /** It has been taken further. */
  ghost predicate MovedOn(h: FS, src: Path, dst: Path, q: Path, node: Node)
    requires Under(src, q)
  {
    WellFormed(h) && q !in h && Rebase(q, src, dst) in h && h[Rebase(q, src, dst)] == node
  }

  lemma TurnComes(c: Chance, h: FS, src: Path, dst: Path, q: Path, n: Name, node: Node, k: nat)
    requires Over(src, dst) && Under(Child(src, n), q) && n != src[|dst|] && Waiting(h, src, dst, q, n, node)
    requires Moving(c, h, Child(src, n), Child(dst, n), ReplaceAll, k).Some?
    ensures MovedOn(Moving(c, h, Child(src, n), Child(dst, n), ReplaceAll, k).value, src, dst, q, node)
  {
    var x, y := Child(src, n), Child(dst, n);
    assert Under(src, q);
    OverChildren(src, dst, n);
    Ancestors(h, x, q);
    Ancestors(h, dst, q);
    NothingBelow(h, y);
    assert h - {y} == h && Parent(y) == dst && y != [];
    assert Moving(c, h, x, y, ReplaceAll, k) == Some(Renamed(h, x, y));
    RenamedWellFormed(h, x, y);
    RebaseUnder(src, dst, n, q);
    RenamedAt(h, x, y, q);
    RenamedAt(h, x, y, Rebase(q, src, dst));
  }

  /** Nothing else in the source has anything to do with these places. */
  lemma Others(src: Path, dst: Path, q: Path, n: Name, m: Name)
    requires Over(src, dst) && Under(Child(src, n), q) && n != src[|dst|] && m != n && m != src[|dst|]
    ensures Under(src, q)
    ensures forall x :: x == q || x == Rebase(q, src, dst) || x == Child(dst, n) ==>
              !Under(Child(src, m), x) && !Under(Child(dst, m), x)
  {
    assert q[|src|] == n && q[|dst|] == src[|dst|];
    assert Rebase(q, src, dst)[|dst|] == n;
    assert Child(src, m)[|src|] == m && Child(dst, m)[|dst|] == m && Child(src, m)[|dst|] == src[|dst|];
  }

  lemma {:induction false} RestMoves(c: Chance, h: FS, src: Path, dst: Path, names: seq<Name>, k: nat,
                                     q: Path, n: Name, node: Node)
    requires Over(src, dst) && Under(Child(src, n), q) && n != src[|dst|] && Waiting(h, src, dst, q, n, node)
    requires n in names && src[|dst|] !in names && forall i, j :: 0 <= i < j < |names| ==> names[i] != names[j]
    requires MovingAll(c, h, src, dst, ReplaceAll, names, k).Some?
    ensures Under(src, q) && MovedOn(MovingAll(c, h, src, dst, ReplaceAll, names, k).value, src, dst, q, node)
    decreases |names|
  {
    hide Moving, WellFormed, Steps, SomeSteps;
    var m := names[0];
    var x, y := Child(src, m), Child(dst, m);
    ChildNotInside(src, dst, m);
    MovingSteps(c, h, x, y, ReplaceAll, k);
    var g := Moving(c, h, x, y, ReplaceAll, k).value;
    if m == n {
      TurnComes(c, h, src, dst, q, n, node, k);
      forall l | l in names[1..]
        ensures forall z :: z == q || z == Rebase(q, src, dst) ==> !Under(Child(src, l), z) && !Under(Child(dst, l), z)
      {
        Others(src, dst, q, n, l);
      }
      AllFrame(c, g, src, dst, names[1..], k, q);
      AllFrame(c, g, src, dst, names[1..], k, Rebase(q, src, dst));
      MovingAllSteps(c, g, src, dst, ReplaceAll, names[1..], k);
    } else {
      Others(src, dst, q, n, m);
      StepsFrame(h, g, x, y, q);
      StepsFrame(h, g, x, y, Child(dst, n));
      RestMoves(c, g, src, dst, names[1..], k, q, n, node);
    }
  }

  /** The first entry of the source, which brings the file to its counterpart. */
  lemma FirstEntry(c: Chance, f: FS, src: Path, dst: Path, p: Path, k: nat) returns (h: FS, rest: seq<Name>)
    requires WellFormed(f) && MovesOn(f, src, dst, p)
    requires ListsAll(c) && WayFirst(c, src, p[|src|..]) && Moving(c, f, src, dst, ReplaceAll, k).Some?
    ensures k > 0 && MovingAll(c, h, src, dst, ReplaceAll, rest, k - 1).Some?
    ensures Moving(c, f, src, dst, ReplaceAll, k).value
         == Emptied(MovingAll(c, h, src, dst, ReplaceAll, rest, k - 1).value, src)
    ensures var n := p[|Again(src, dst)|];
      && Waiting(h, src, dst, Rebase(p, src, dst), n, f[p])
      && n in rest && src[|dst|] !in rest && forall i, j :: 0 <= i < j < |rest| ==> rest[i] != rest[j]
  {
    hide ListsAll, WayFirst, WellFormed, Steps, SomeSteps, MergesDown, Lists, Moving, MovingAll, MovesOn,
         Emptied, Listing;
    MovesOnIs(f, src, dst, p);
    Places(src, dst, p);
    MovesOnMerges(f, src, dst, p);
    var way, n := p[|src|..], p[|Again(src, dst)|];
    assert src + way[..0] == src && dst + way[..0] == dst;
    assert src + way[..1] == Child(src, way[0]) && dst + way[..1] == Child(dst, way[0]);
    NextIsThere(f, src, dst, p, 0);
    MoveDown(c, f, src, dst, way, 0, k);
    ArrivesDown(c, f, src, dst, p, 1, k - 1);
    h := Moving(c, f, Child(src, way[0]), Child(dst, way[0]), ReplaceAll, k - 1).value;
    ChildNotInside(src, dst, way[0]);
    MovingSteps(c, f, Child(src, way[0]), Child(dst, way[0]), ReplaceAll, k - 1);
    StillMissing(f, h, src, dst, n);
    var names := c.order(src, Listing(f, src));
    RestNames(f, src, names, n, src[|dst|]);
    rest := names[1..];
  }

  /** A file or link that moves on ends at the counterpart of its counterpart, when the way to
      it is taken first.  If there is no other like it, it is then neither where it was nor
      where it should be. */
  lemma MovesTwice(c: Chance, f: FS, src: Path, dst: Path, p: Path, k: nat)
    requires WellFormed(f) && MovesOn(f, src, dst, p)
    requires ListsAll(c) && WayFirst(c, src, p[|src|..]) && k > Depth(f)
    ensures Under(src, p) && Under(src, Rebase(p, src, dst))
    ensures Moving(c, f, src, dst, ReplaceAll, k).Some?
    ensures var g, q := Moving(c, f, src, dst, ReplaceAll, k).value, Rebase(p, src, dst); var r := Rebase(q, src, dst);
      && r in g && g[r] == f[p] && q !in g
      && (Unique(f, p) ==> p !in g || g[p] != f[p])
  {
    hide ListsAll, WayFirst, WellFormed, Steps, SomeSteps, Moving, MovingAll, Depth, MovesOn, Listing, Unique;
    MovesOnIs(f, src, dst, p);
    Places(src, dst, p);
    DepthBounds(f);
    MovingEnds(c, f, src, dst, ReplaceAll, k, Depth(f));
    var q, n := Rebase(p, src, dst), p[|Again(src, dst)|];
    var h, rest := FirstEntry(c, f, src, dst, p, k);
    RestMoves(c, h, src, dst, rest, k - 1, q, n, f[p]);
    MovingSteps(c, f, src, dst, ReplaceAll, k);
    if Unique(f, p) { NowhereElse(f, Moving(c, f, src, dst, ReplaceAll, k).value, src, dst, p, Rebase(q, src, dst)); }
  }

  lemma DepthBounds(f: FS)
    ensures forall p :: p in f ==> |p| <= Depth(f)
  {
    assert forall p :: p in f ==> p in f.Keys;
  }

  lemma StillMissing(f: FS, h: FS, src: Path, dst: Path, n: Name)
    requires Over(src, dst) && n != src[|dst|] && Child(dst, n) !in f
    requires SomeSteps(f, h, Child(src, src[|dst|]), Child(dst, src[|dst|]))
    ensures Child(dst, n) !in h
  {
    var s := src[|dst|];
    ChildNotInside(src, dst, s);
    assert Child(dst, s)[|dst|] == s && Child(dst, n)[|dst|] == n && Child(src, s)[|dst|] == s;
    StepsFrame(f, h, Child(src, s), Child(dst, s), Child(dst, n));
  }

  lemma RestNames(f: FS, src: Path, names: seq<Name>, n: Name, first: Name)
    requires Lists(names, Listing(f, src)) && names != [] && names[0] == first && n != first && Child(src, n) in f
    ensures n in names[1..] && first !in names[1..]
    ensures forall i, j :: 0 <= i < j < |names[1..]| ==> names[1..][i] != names[1..][j]
  {
    var x := Child(src, n);
    assert x != [] && Parent(x) == src && Leaf(x) == n;
    assert n in Listing(f, src) && n in (set m | m in names);
  }

  lemma NowhereElse(f: FS, g: FS, src: Path, dst: Path, p: Path, r: Path)
    requires Unique(f, p) && SomeSteps(f, g, src, dst) && r in g && g[r] == f[p] && r != p
    ensures p !in g || g[p] != f[p]
  {
    NothingNew(f, g, src, dst);
    assert AtMostOnce(f, f[p]);
  }

  // ----- whole runs

  /** The run of do_move2 itself. */
  method MoveTwice(w: World, path: Path, dest: Path, ghost p: Path)
    requires WellFormed(w.fs) && path != [] && Automatic(w) && w.policy == ReplaceAll
    requires MovesOn(w.fs, path, w.MakeDestPath(path, dest), p) && Unique(w.fs, p)
    requires ListsAll(w.chance) && WayFirst(w.chance, path, p[|path|..])
    modifies w
    ensures var dst := old(w.MakeDestPath(path, dest));
      && Under(path, p) && Under(path, Rebase(p, path, dst))
      && var q := Rebase(p, path, dst); var r := Rebase(q, path, dst);
      r in w.fs && w.fs[r] == old(w.fs)[p] && q !in w.fs && (p !in w.fs || w.fs[p] != old(w.fs)[p])
  {
    hide Moving, Move.Moved, Move.Complete, Move.Obeyed, Move.MoveSafe, WellFormed, Unique, Depth, ListsAll, WayFirst,
         Steps;
    ghost var f, dst := w.fs, w.MakeDestPath(path, dest);
    MovesOnIs(f, path, dst, p);
    MovesTwice(w.chance, f, path, dst, p, Depth(f) + 1);
    ghost var no, es := Move.DoMove2(w, path, dest);
    assert w.fs == Moving(w.chance, f, path, dst, ReplaceAll, Depth(f) + 1).value;
  }

  /** Moving /p/p to / when there is a file /p/p/p/b and an empty directory /p/p/b: the file is
      moved to /p/p/b and from there to /p/b. */
  function Doubled(): FS {
    map[[] := DIR, ["p"] := DIR, ["p", "p"] := DIR, ["p", "p", "p"] := DIR, ["p", "p", "b"] := DIR,
        ["p", "p", "p", "b"] := ONE]
  }

  lemma DoubledWellFormed()
    ensures WellFormed(Doubled()) && Unique(Doubled(), ["p", "p", "p", "b"])
  {
    var a, b, c, d, e: Path := ["p"], ["p", "p"], ["p", "p", "p"], ["p", "p", "b"], ["p", "p", "p", "b"];
    assert Parent(a) == [] && Parent(b) == a && Parent(c) == b && Parent(d) == b && Parent(e) == c;
  }

  lemma DoubledPaths()
    ensures Again(["p", "p"], ["p"]) == ["p", "p", "p"]
    ensures Rebase(["p", "p", "p", "b"], ["p", "p"], ["p"]) == ["p", "p", "b"]
    ensures Rebase(["p", "p", "b"], ["p", "p"], ["p"]) == ["p", "b"]
    ensures ["p", "b"] !in Doubled() && Listing(Doubled(), ["p", "p", "b"]) == {}
  {
    var a, b, q, r: Path := ["p", "p"], ["p", "p", "p"], ["p", "p", "b"], ["p", "b"];
    assert "p"[0] == 'p' && "b"[0] == 'b';
    assert a[1] == "p" && b[2] == "p" && q[2] == "b" && r[1] == "b" && r != a;
    assert Parent(["p", "p", "p", "b"]) == b && b != q;
  }

  lemma DoubledMovesOn()
    ensures MovesOn(Doubled(), ["p", "p"], ["p"], ["p", "p", "p", "b"])
  {
    hide Again, Rebase, Listing;
    DoubledPaths();
    var src, p: Path := ["p", "p"], ["p", "p", "p", "b"];
    assert p[3] == "b" && src[1] == "p" && "p"[0] == 'p' && "b"[0] == 'b';
    assert Child(["p"], "b") == ["p", "b"];
  }

  method FileMovedTwice(chance: Chance) returns (w: World)
    requires ListsAll(chance) && WayFirst(chance, ["p", "p"], ["p", "b"])
    ensures ["p", "b"] in w.fs && w.fs[["p", "b"]] == ONE && ["p", "p", "b"] !in w.fs
  {
    hide MovesOn, Unique, ListsAll, WayFirst, Doubled;
    var path, p: Path := ["p", "p"], ["p", "p", "p", "b"];
    DoubledWellFormed();
    DoubledPaths();
    DoubledMovesOn();
    w := NewWorld(Doubled(), chance);
    assert w.MakeDestPath(path, []) == ["p"];
    assert p[|path|..] == ["p", "b"];
    DoubledHolds();
    MoveTwice(w, path, [], p);
  }

  lemma DoubledHolds()
    ensures ["p", "p", "p", "b"] in Doubled() && Doubled()[["p", "p", "p", "b"]] == ONE
  {
  }
}
