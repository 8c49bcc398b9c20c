/** Exactly when a move keeps a file whose counterpart lies outside the source: when nothing in
    the source can come to stand in its place. */
module ActionRivals {
  import opened Basics
  import opened FileTree
  import opened ActionWorld
  import opened ActionConflict
  import opened ActionAuto
  import opened ActionSteps
  import opened ActionOverlap
  import opened ActionTwice

  // ----- the way back into the source

  /** The path of length `n` on the way that leads from a destination containing the source
      into the source again and again: the names of `src` below `dst` repeat. */
  function Way(src: Path, dst: Path, n: nat): (r: Path)
    requires Over(src, dst)
    ensures |r| == n
  {
    if n <= |src| then src[..n]
    else
      var r := Way(src, dst, n - 1);
      r + [r[n - 1 - (|src| - |dst|)]]
  }

  /** The name by which it goes on. */
  function Onward(src: Path, dst: Path, n: nat): Name
    requires Over(src, dst)
  {
    Way(src, dst, n + 1)[n]
  }

  lemma {:induction false} WayPrefix(src: Path, dst: Path, m: nat, n: nat)
    requires Over(src, dst) && m <= n
    ensures Way(src, dst, n)[..m] == Way(src, dst, m)
    decreases n
  {
    if m < n && n > |src| {
      WayPrefix(src, dst, m, n - 1);
      assert Way(src, dst, n)[..m] == Way(src, dst, n - 1)[..m];
    } else if m < n {
      assert src[..n][..m] == src[..m];
    }
  }

  lemma WayAt(src: Path, dst: Path, m: nat, n: nat)
    requires Over(src, dst) && m < n
    ensures Way(src, dst, n)[m] == Onward(src, dst, m)
  {
    WayPrefix(src, dst, m + 1, n);
    assert Way(src, dst, n)[m] == Way(src, dst, n)[..m + 1][m];
  }

  lemma WaySource(src: Path, dst: Path, n: nat)
    requires Over(src, dst) && n >= |src|
    ensures Under(src, Way(src, dst, n)) && Way(src, dst, |src|) == src && Way(src, dst, |dst|) == dst
  {
    WayPrefix(src, dst, |src|, n);
    assert src[..|src|] == src && src[..|dst|] == dst;
  }

  /** It goes on by one name at a time, the name that came a round before. */
  lemma WayNext(src: Path, dst: Path, n: nat)
    requires Over(src, dst)
    ensures Way(src, dst, n + 1) == Way(src, dst, n) + [Onward(src, dst, n)]
    ensures n >= |src| ==> Onward(src, dst, n) == Onward(src, dst, n - (|src| - |dst|))
  {
    WayPrefix(src, dst, n, n + 1);
    assert Way(src, dst, n + 1) == Way(src, dst, n + 1)[..n] + [Way(src, dst, n + 1)[n]];
    if n >= |src| { WayAt(src, dst, n - (|src| - |dst|), n); }
  }

  /** The counterpart of a path on the way is on it as well. */
  lemma {:induction false} WayShift(src: Path, dst: Path, n: nat)
    requires Over(src, dst) && n >= |src|
    ensures Under(src, Way(src, dst, n))
    ensures Rebase(Way(src, dst, n), src, dst) == Way(src, dst, n - (|src| - |dst|))
    ensures Onward(src, dst, n) == Onward(src, dst, n - (|src| - |dst|))
    decreases n
  {
    hide Way, Onward;
    var s := |src| - |dst|;
    WaySource(src, dst, n);
    WayNext(src, dst, n);
    if n > |src| {
      WayShift(src, dst, n - 1);
      WayNext(src, dst, n - 1);
      WayNext(src, dst, n - 1 - s);
      assert Way(src, dst, n)[|src|..] == Way(src, dst, n - 1)[|src|..] + [Onward(src, dst, n - 1)];
    }
  }

  /** `x` leaves the way after `n` names, with the rest `u`. */
  ghost predicate Leaves(src: Path, dst: Path, n: nat, u: Path, x: Path)
    requires Over(src, dst)
  {
    n >= |src| && u != [] && u[0] != Onward(src, dst, n) && x == Way(src, dst, n) + u
  }

  lemma LeavesUnder(src: Path, dst: Path, n: nat, u: Path, x: Path)
    requires Over(src, dst) && Leaves(src, dst, n, u, x)
    ensures Under(src, x) && |x| == n + |u|
  {
    WaySource(src, dst, n);
  }

  /** What is in the source is on the way or leaves it. */
  lemma {:induction false} OnOrOff(src: Path, dst: Path, x: Path, m: nat) returns (n: nat, u: Path)
    requires Over(src, dst) && Under(src, x) && |src| <= m <= |x| && x[..m] == Way(src, dst, m)
    ensures if u == [] then x == Way(src, dst, |x|) && n == |x| else Leaves(src, dst, n, u, x)
    decreases |x| - m
  {
    if m == |x| {
      assert x[..m] == x;
      n, u := m, [];
    } else if x[m] == Onward(src, dst, m) {
      WayPrefix(src, dst, m, m + 1);
      assert x[..m + 1] == x[..m] + [x[m]] == Way(src, dst, m + 1)[..m] + [Way(src, dst, m + 1)[m]];
      n, u := OnOrOff(src, dst, x, m + 1);
    } else {
      n, u := m, x[m..];
    }
  }

  /** It does so in one way only. */
  lemma LeavesOnce(src: Path, dst: Path, m: nat, n: nat, u: Path, v: Path, x: Path)
    requires Over(src, dst) && Leaves(src, dst, m, u, x) && Leaves(src, dst, n, v, x)
    ensures m == n && u == v
  {
    hide Way, Onward;
    if m < n { WayAt(src, dst, m, n); }
    if n < m { WayAt(src, dst, n, m); }
    assert x[m..] == u && x[n..] == v;
  }

  lemma NotOnWay(src: Path, dst: Path, m: nat, n: nat, u: Path, x: Path)
    requires Over(src, dst) && Leaves(src, dst, m, u, x)
    ensures x != Way(src, dst, n)
  {
    if x == Way(src, dst, n) { WayAt(src, dst, m, n); }
  }

  /** The counterpart leaves the way in the same manner, if it is in the source. */
  lemma LeavesShift(src: Path, dst: Path, n: nat, u: Path, x: Path)
    requires Over(src, dst) && Leaves(src, dst, n, u, x) && Under(src, x)
    ensures var s, y := |src| - |dst|, Rebase(x, src, dst);
      && y == Way(src, dst, n - s) + u && u[0] != Onward(src, dst, n - s)
      && (Under(src, y) ==> Leaves(src, dst, n - s, u, y))
  {
    hide Way, Onward;
    var s, y := |src| - |dst|, Rebase(x, src, dst);
    WayShift(src, dst, n);
    assert x[|src|..] == Way(src, dst, n)[|src|..] + u;
    assert y == Rebase(Way(src, dst, n), src, dst) + u;
    if n - s < |src| {
      WayAt(src, dst, n - s, |src|);
      WaySource(src, dst, |src|);
      assert src[n - s] != y[n - s];
    }
  }

  /** A path on the way and its counterpart, with their next steps. */
  lemma WayPair(src: Path, dst: Path, m: nat)
    requires Over(src, dst) && m >= |src|
    ensures var a, b, name := Way(src, dst, m), Way(src, dst, m - (|src| - |dst|)), Onward(src, dst, m);
      && Over(a, b) && a[|b|] == name && Under(src, a)
      && Child(a, name) == Way(src, dst, m + 1) && Child(b, name) == Way(src, dst, m + 1 - (|src| - |dst|))
  {
    hide Way, Onward;
    var s := |src| - |dst|;
    WayPrefix(src, dst, m - s, m);
    WayShift(src, dst, m);
    WayAt(src, dst, m - s, m);
    WayNext(src, dst, m);
    WayNext(src, dst, m - s);
  }

  /** The root of what leaves the way is the first path off it. */
  lemma {:induction false} RootOff(src: Path, dst: Path, m: nat, n: nat, u: Path)
    requires Over(src, dst) && |src| <= m <= n && u != [] && u[0] != Onward(src, dst, n)
    ensures var a, b, x := Way(src, dst, m), Way(src, dst, m - (|src| - |dst|)), Way(src, dst, n) + u;
      Under(a, x) && Root(a, b, x) == Way(src, dst, n) + [u[0]]
    decreases n - m
  {
    hide Way, Onward;
    var a, b, x := Way(src, dst, m), Way(src, dst, m - (|src| - |dst|)), Way(src, dst, n) + u;
    WayPair(src, dst, m);
    WayPrefix(src, dst, m, n);
    assert x[..m] == a;
    OverChildren(a, b, x[m]);
    if m < n {
      WayAt(src, dst, m, n);
      RootOff(src, dst, m + 1, n, u);
    }
  }

  /** A path on the way is its own root. */
  lemma {:induction false} RootOn(src: Path, dst: Path, m: nat, n: nat)
    requires Over(src, dst) && |src| <= m <= n
    ensures var a, b, x := Way(src, dst, m), Way(src, dst, m - (|src| - |dst|)), Way(src, dst, n);
      Under(a, x) && Root(a, b, x) == x
    decreases n - m
  {
    hide Way, Onward;
    var a, b, x := Way(src, dst, m), Way(src, dst, m - (|src| - |dst|)), Way(src, dst, n);
    WayPair(src, dst, m);
    WayPrefix(src, dst, m, n);
    if m < n {
      WayAt(src, dst, m, n);
      OverChildren(a, b, x[m]);
      RootOn(src, dst, m + 1, n);
    }
  }

  // ----- rivals

  /** What can come to stand at a file or link of the source leaves the way as the file does,
      further on. */
  lemma {:induction false} RivalLeaves(f: FS, src: Path, dst: Path, r: Path, p: Path) returns (n: nat, m: nat, u: Path)
    requires WellFormed(f) && Over(src, dst) && Under(src, p) && p in f && !IsDir(f, p)
    requires Lands(f.Keys, src, dst, r, p)
    ensures Leaves(src, dst, n, u, r) && Leaves(src, dst, m, u, p) && m < n
    decreases |r|
  {
    hide Way, Onward, Leaves, Lands, WellFormed, Root;
    LandsUnfolds(f.Keys, src, dst, r, p);
    var s, q := |src| - |dst|, Rebase(r, src, dst);
    WaySource(src, dst, |src|);
    assert r[..|src|] == src;
    n, u := OnOrOff(src, dst, r, |src|);
    if u == [] {
      if q == p {
        FirstOnWay(f, src, dst, r);
      } else {
        var k, l, v := RivalLeaves(f, src, dst, q, p);
        WayShift(src, dst, n);
        NotOnWay(src, dst, k, n - s, v, q);
      }
    } else {
      LeavesShift(src, dst, n, u, r);
      if q == p {
        m := n - s;
      } else {
        var k, l, v := RivalLeaves(f, src, dst, q, p);
        LeavesUnder(src, dst, k, v, q);
        LeavesOnce(src, dst, k, n - s, v, u, q);
        m := l;
      }
    }
  }

  lemma LandsUnfolds(roots: set<Path>, src: Path, dst: Path, r: Path, p: Path)
    requires Lands(roots, src, dst, r, p)
    ensures Under(src, r) && Root(src, dst, r) in roots
    ensures var q := Rebase(r, src, dst); q == p || (Over(src, dst) && Under(src, q) && Lands(roots, src, dst, q, p))
    ensures Over(src, dst) ==> |Rebase(r, src, dst)| < |r|
  {
  }

  /** The first to stand where the counterpart of a path on the way is cannot do so unless that
      is a directory. */
  lemma FirstOnWay(f: FS, src: Path, dst: Path, r: Path)
    requires WellFormed(f) && Over(src, dst) && Under(src, r) && Root(src, dst, r) in f && r == Way(src, dst, |r|)
    ensures IsDir(f, Rebase(r, src, dst))
  {
    hide Way, Onward, Root, WellFormed;
    var n, s := |r|, |src| - |dst|;
    WaySource(src, dst, n);
    WaySource(src, dst, |src|);
    RootOn(src, dst, |src|, n);
    WayShift(src, dst, n);
    WayPrefix(src, dst, n - s, n);
    Ancestors(f, Rebase(r, src, dst), r);
  }

  // ----- one directory merged into another, neither of which contains the other

  /** Whatever order it takes, the merge brings an entry to its counterpart, if no directory is
      there, and destroys what is there. */
  lemma {:induction false} Brings(c: Chance, h: FS, x: Path, y: Path, v: Path, k: nat)
    requires WellFormed(h) && ListsAll(c) && Apart(x, y) && y != [] && IsDir(h, Parent(y))
    requires x + v in h && !IsDir(h, y + v) && Moving(c, h, x, y, ReplaceAll, k).Some?
    ensures var g := Moving(c, h, x, y, ReplaceAll, k).value;
      y + v in g && (y + v in h && AtMostOnce(h, h[y + v]) ==> h[y + v] !in g.Values)
    decreases k, 1, 0
  {
    hide Shifted, Skips, WellFormed, AtMostOnce, MovingAll;
    Ancestors(h, x, x + v);
    assert v == [] ==> x + v == x && y + v == y;
    NotSkippedFor(h, x, y);
    if IsDir(h, x) && IsDir(h, y) {
      var names := c.order(x, Listing(h, x));
      FirstListed(h, x, v);
      assert Lists(names, Listing(h, x));
      BringsAll(c, h, x, y, names, v, k - 1);
      assert y + v != x;
    } else {
      StrikeAt(h, x, y, v);
    }
  }

  lemma NotSkippedFor(h: FS, x: Path, y: Path)
    requires x in h && (IsDir(h, x) || !IsDir(h, y))
    ensures !Skips(h, x, y, ReplaceAll)
  {
  }

  lemma FirstListed(h: FS, x: Path, v: Path)
    requires WellFormed(h) && x + v in h && v != []
    ensures v[0] in Listing(h, x)
  {
    ListingComplete(h, x, x + v);
    assert (x + v)[|x|] == v[0];
  }

  lemma StrikeAt(h: FS, x: Path, y: Path, v: Path)
    requires WellFormed(h) && Apart(x, y) && y != [] && IsDir(h, Parent(y)) && x + v in h && !IsDir(h, y + v)
    requires x in h && !(IsDir(h, x) && IsDir(h, y))
    ensures var g := Shifted(h, x, y);
      y + v in g && (y + v in h && AtMostOnce(h, h[y + v]) ==> h[y + v] !in g.Values)
  {
    hide Renamed;
    var h1 := h - {y};
    Ancestors(h, x, x + v);
    assert v == [] ==> x + v == x && y + v == y;
    assert !IsDir(h, y);
    if y in h {
      RemoveWellFormed(h, y);
      if y + v in h { Ancestors(h, y, y + v); }
    } else {
      assert h1 == h;
      NothingBelow(h, y);
    }
    NothingBelow(h1, y);
    assert Under(y, y + v) && Rebase(y + v, y, x) == x + v;
    RenamedAt(h1, x, y, y + v);
    ShiftedValues(h, x, y);
  }

  lemma {:induction false} BringsAll(c: Chance, h: FS, x: Path, y: Path, names: seq<Name>, v: Path, k: nat)
    requires WellFormed(h) && ListsAll(c) && Apart(x, y) && IsDir(h, y)
    requires v != [] && v[0] in names && forall i, j :: 0 <= i < j < |names| ==> names[i] != names[j]
    requires x + v in h && !IsDir(h, y + v) && MovingAll(c, h, x, y, ReplaceAll, names, k).Some?
    ensures var g := MovingAll(c, h, x, y, ReplaceAll, names, k).value;
      y + v in g && (y + v in h && AtMostOnce(h, h[y + v]) ==> h[y + v] !in g.Values)
    decreases k, 2, |names|
  {
    hide Moving, WellFormed, SomeSteps, Steps, AtMostOnce, ListsAll;
    var n, rest := names[0], names[1..];
    var a, b := Child(x, n), Child(y, n);
    ApartChildren(x, y, n);
    MovingSteps(c, h, a, b, ReplaceAll, k);
    var g := Moving(c, h, a, b, ReplaceAll, k).value;
    NothingNew(h, g, a, b);
    MovingAllSteps(c, g, x, y, ReplaceAll, rest, k);
    if n == v[0] {
      assert a + v[1..] == x + v && b + v[1..] == y + v;
      Brings(c, h, a, b, v[1..], k);
      EntryAside(x, y, v, rest);
      AllFrame(c, g, x, y, rest, k, y + v);
      NothingNew(g, MovingAll(c, g, x, y, ReplaceAll, rest, k).value, x, y);
    } else {
      OtherEntry(x, y, v, n);
      StepsFrame(h, g, a, b, x + v);
      StepsFrame(h, g, a, b, y + v);
      StepsFrame(h, g, a, b, y);
      BringsAll(c, g, x, y, rest, v, k);
    }
  }

  lemma OtherEntry(x: Path, y: Path, v: Path, n: Name)
    requires Apart(x, y) && v != [] && n != v[0]
    ensures forall z :: z == x + v || z == y + v || z == y ==> !Under(Child(x, n), z) && !Under(Child(y, n), z)
  {
    assert (x + v)[|x|] == v[0] && (y + v)[|y|] == v[0];
    ApartAt(x, y, x + v);
    ApartAt(y, x, y + v);
    ApartAt(y, x, y);
    if Under(Child(x, n), y + v) { UnderTrans(x, Child(x, n), y + v); }
    if Under(Child(y, n), x + v) { UnderTrans(y, Child(y, n), x + v); }
    if Under(Child(x, n), y) { UnderTrans(x, Child(x, n), y); }
  }

  lemma EntryAside(x: Path, y: Path, v: Path, rest: seq<Name>)
    requires Apart(x, y) && v != [] && v[0] !in rest
    ensures Aside(x, y, rest, y + v)
  {
    forall n | n in rest ensures !Under(Child(x, n), y + v) && !Under(Child(y, n), y + v) {
      OtherEntry(x, y, v, n);
    }
  }

  // ----- the nearest rival comes nearer

  /** Rivals follow each other at a distance. */
  lemma RivalLength(roots: set<Path>, src: Path, dst: Path, r: Path, p: Path)
    requires Over(src, dst) && Lands(roots, src, dst, r, p)
    ensures |r| >= |p| + (|src| - |dst|)
    decreases |r|
  {
    if Rebase(r, src, dst) != p { RivalLength(roots, src, dst, Rebase(r, src, dst), p); }
  }

  lemma {:induction false} RivalGap(roots: set<Path>, src: Path, dst: Path, r: Path, x: Path, p: Path)
    requires Over(src, dst) && Lands(roots, src, dst, r, p) && Lands(roots, src, dst, x, p) && |x| < |r|
    ensures |x| <= |r| - (|src| - |dst|)
    decreases |r|
  {
    hide Lands;
    LandsUnfolds(roots, src, dst, r, p);
    LandsUnfolds(roots, src, dst, x, p);
    var q, y := Rebase(r, src, dst), Rebase(x, src, dst);
    RivalLength(roots, src, dst, x, p);
    if q != p {
      if y == p {
        RivalLength(roots, src, dst, q, p);
      } else {
        RivalGap(roots, src, dst, q, y, p);
      }
    }
  }

  /** In `h`, on the way from the state `f`, the file `node` is still at `p`, and `r` is the
      nearest that can come to stand there. */
  ghost predicate Nearest(f: FS, src: Path, dst: Path, p: Path, node: Node, h: FS, r: Path) {
    && WellFormed(h) && r in h && Lands(f.Keys, src, dst, r, p)
    && (forall x :: x in h && Lands(f.Keys, src, dst, x, p) ==> |x| >= |r|)
    && p in h && h[p] == node && !IsDir(h, p) && AtMostOnce(h, node)
  }

  /** What the merge of one entry of a directory on the way leaves alone. */
  lemma FrameOff(h: FS, g: FS, src: Path, dst: Path, d: nat, name: Name, m: nat, u: Path, x: Path)
    requires Over(src, dst) && d >= |src| && Leaves(src, dst, m, u, x) && m <= d
    requires name != Onward(src, dst, d) || m <= d - (|src| - |dst|)
    requires name != u[0] || (m != d && m != d - (|src| - |dst|))
    requires SomeSteps(h, g, Child(Way(src, dst, d), name), Child(Way(src, dst, d - (|src| - |dst|)), name))
    ensures Same(h, g, x)
  {
    hide Way, Onward, SomeSteps;
    var e := d - (|src| - |dst|);
    var a, b := Child(Way(src, dst, d), name), Child(Way(src, dst, e), name);
    WayShift(src, dst, d);
    if m < d { WayAt(src, dst, m, d); }
    if m < e { WayAt(src, dst, m, e); }
    if e < m { WayAt(src, dst, e, m); }
    assert !Under(a, x) by { assert a[|a| - 1] == name && (m < d ==> a[m] == Onward(src, dst, m)); }
    assert !Under(b, x) by { assert b[|b| - 1] == name && (m < e ==> b[m] == Onward(src, dst, m)); }
    StepsFrame(h, g, a, b, x);
  }

  /** All of them are where they were: the rival is still the nearest. */
  lemma StillNearest(f: FS, src: Path, dst: Path, p: Path, node: Node, h: FS, g: FS, r: Path)
    requires Nearest(f, src, dst, p, node, h, r) && WellFormed(g)
    requires Same(h, g, r) && Same(h, g, p) && AtMostOnce(g, node)
    requires forall x :: Lands(f.Keys, src, dst, x, p) && |x| < |r| ==> Same(h, g, x)
    ensures Nearest(f, src, dst, p, node, g, r)
  {
  }

  /** The depth at which `x` leaves the way. */
  lemma RivalDepth(f: FS, src: Path, dst: Path, x: Path, p: Path, m: nat, u: Path)
    requires WellFormed(f) && Over(src, dst) && Under(src, p) && p in f && !IsDir(f, p) && Leaves(src, dst, m, u, p)
    requires Lands(f.Keys, src, dst, x, p)
    ensures |x| >= |u| && Leaves(src, dst, |x| - |u|, u, x) && m < |x| - |u|
  {
    hide Way, Onward, Leaves, Lands;
    var k, l, v := RivalLeaves(f, src, dst, x, p);
    LeavesOnce(src, dst, l, m, v, u, p);
    LeavesUnder(src, dst, k, v, x);
  }

  /** The file at `p`, which leaves the way after `m` names. */
  ghost predicate FileOff(f: FS, src: Path, dst: Path, p: Path, m: nat, u: Path) {
    WellFormed(f) && Over(src, dst) && Under(src, p) && p in f && !IsDir(f, p) && Leaves(src, dst, m, u, p)
  }

  /** What the merge of one entry at depth `d` leaves alone of the rivals that are nearer than
      `r`, and of the file. */
  lemma RivalsPass(f: FS, src: Path, dst: Path, p: Path, m: nat, u: Path, r: Path, d: nat, name: Name, h: FS, g: FS)
    requires FileOff(f, src, dst, p, m, u) && Lands(f.Keys, src, dst, r, p) && d >= |src|
    requires var n, e := |r| - |u|, d - (|src| - |dst|); n <= d && (name != Onward(src, dst, d) || n <= e)
    requires var n, e := |r| - |u|, d - (|src| - |dst|); name != u[0] || e <= n < d
    requires SomeSteps(h, g, Child(Way(src, dst, d), name), Child(Way(src, dst, d - (|src| - |dst|)), name))
    ensures Same(h, g, p) && forall x :: Lands(f.Keys, src, dst, x, p) && |x| < |r| ==> Same(h, g, x)
  {
    hide Way, Onward, Lands, SomeSteps;
    RivalDepth(f, src, dst, r, p, m, u);
    RivalLength(f.Keys, src, dst, r, p);
    LeavesUnder(src, dst, m, u, p);
    FrameOff(h, g, src, dst, d, name, m, u, p);
    forall x | Lands(f.Keys, src, dst, x, p) && |x| < |r| ensures Same(h, g, x) {
      RivalDepth(f, src, dst, x, p, m, u);
      RivalGap(f.Keys, src, dst, r, x, p);
      FrameOff(h, g, src, dst, d, name, |x| - |u|, u, x);
    }
  }

  /** Another entry of the directory at depth `d`: the nearest rival, at depth `n`, stays so. */
  lemma EntryPasses(c: Chance, f: FS, src: Path, dst: Path, p: Path, m: nat, u: Path, node: Node, h: FS, r: Path,
                    d: nat, name: Name, k: nat)
    requires FileOff(f, src, dst, p, m, u) && Nearest(f, src, dst, p, node, h, r) && d >= |src|
    requires var n, e := |r| - |u|, d - (|src| - |dst|);
      && n <= d && (name != Onward(src, dst, d) || n <= e)
      && (name != u[0] || e < n < d)
    requires var a, b := Child(Way(src, dst, d), name), Child(Way(src, dst, d - (|src| - |dst|)), name);
      Moving(c, h, a, b, ReplaceAll, k).Some?
    ensures var a, b := Child(Way(src, dst, d), name), Child(Way(src, dst, d - (|src| - |dst|)), name);
      Nearest(f, src, dst, p, node, Moving(c, h, a, b, ReplaceAll, k).value, r)
  {
    hide Way, Onward, Lands, Moving, SomeSteps, Steps, WellFormed, AtMostOnce, Leaves, Nearest;
    var s := |src| - |dst|;
    var a, b := Child(Way(src, dst, d), name), Child(Way(src, dst, d - s), name);
    var g := Moving(c, h, a, b, ReplaceAll, k).value;
    NearestIs(f, src, dst, p, node, h, r);
    WayPair(src, dst, d);
    ChildNotInside(Way(src, dst, d), Way(src, dst, d - s), name);
    MovingSteps(c, h, a, b, ReplaceAll, k);
    NothingNew(h, g, a, b);
    RivalSelf(f, src, dst, p, m, u, r, d, name, h, g);
    RivalsPass(f, src, dst, p, m, u, r, d, name, h, g);
    StillNearest(f, src, dst, p, node, h, g, r);
  }

  lemma NearestIs(f: FS, src: Path, dst: Path, p: Path, node: Node, h: FS, r: Path)
    requires Nearest(f, src, dst, p, node, h, r)
    ensures WellFormed(h) && r in h && Lands(f.Keys, src, dst, r, p) && AtMostOnce(h, node)
  {
  }

  lemma RivalSelf(f: FS, src: Path, dst: Path, p: Path, m: nat, u: Path, r: Path, d: nat, name: Name, h: FS, g: FS)
    requires FileOff(f, src, dst, p, m, u) && Lands(f.Keys, src, dst, r, p) && d >= |src|
    requires var n, e := |r| - |u|, d - (|src| - |dst|);
      n <= d && (name != Onward(src, dst, d) || n <= e) && (name != u[0] || e < n < d)
    requires SomeSteps(h, g, Child(Way(src, dst, d), name), Child(Way(src, dst, d - (|src| - |dst|)), name))
    ensures Same(h, g, r)
  {
    hide Way, Onward, Lands, SomeSteps;
    RivalDepth(f, src, dst, r, p, m, u);
    FrameOff(h, g, src, dst, d, name, |r| - |u|, u, r);
  }

  /** Its own turn: it comes to its counterpart, or destroys the file. */
  lemma RivalClimbs(c: Chance, f: FS, src: Path, dst: Path, p: Path, m: nat, u: Path, node: Node, h: FS, r: Path,
                    d: nat, k: nat)
    requires FileOff(f, src, dst, p, m, u) && Nearest(f, src, dst, p, node, h, r) && |r| == d + |u| && ListsAll(c)
    requires d >= |src|
    requires var a, b := Child(Way(src, dst, d), u[0]), Child(Way(src, dst, d - (|src| - |dst|)), u[0]);
      Moving(c, h, a, b, ReplaceAll, k).Some?
    ensures var a, b := Child(Way(src, dst, d), u[0]), Child(Way(src, dst, d - (|src| - |dst|)), u[0]);
      var g := Moving(c, h, a, b, ReplaceAll, k).value;
      node !in g.Values || (Under(src, r) && Nearest(f, src, dst, p, node, g, Rebase(r, src, dst)))
  {
    hide Way, Onward, Lands, Moving, SomeSteps, Steps, WellFormed, AtMostOnce, ListsAll;
    var s := |src| - |dst|;
    var a, b := Child(Way(src, dst, d), u[0]), Child(Way(src, dst, d - s), u[0]);
    var g := Moving(c, h, a, b, ReplaceAll, k).value;
    LandsUnfolds(f.Keys, src, dst, r, p);
    RivalDepth(f, src, dst, r, p, m, u);
    hide Leaves;
    var q := Rebase(r, src, dst);
    ClimbPlaces(src, dst, d, u, r);
    WayPair(src, dst, d);
    Ancestors(h, Way(src, dst, d - s), r);
    Brings(c, h, a, b, u[1..], k);
    ChildNotInside(Way(src, dst, d), Way(src, dst, d - s), u[0]);
    MovingSteps(c, h, a, b, ReplaceAll, k);
    NothingNew(h, g, a, b);
    if q != p { ClimbedNearest(f, src, dst, p, m, u, node, h, g, r, q, d); }
  }

  lemma ClimbedNearest(f: FS, src: Path, dst: Path, p: Path, m: nat, u: Path, node: Node, h: FS, g: FS,
                       r: Path, q: Path, d: nat)
    requires FileOff(f, src, dst, p, m, u) && Nearest(f, src, dst, p, node, h, r) && |r| == d + |u| && d >= |src|
    requires |q| == |r| - (|src| - |dst|) && Lands(f.Keys, src, dst, q, p) && q in g
    requires WellFormed(g) && AtMostOnce(g, node) && u[0] != Onward(src, dst, d)
    requires SomeSteps(h, g, Child(Way(src, dst, d), u[0]), Child(Way(src, dst, d - (|src| - |dst|)), u[0]))
    ensures Nearest(f, src, dst, p, node, g, q)
  {
    RivalDepth(f, src, dst, q, p, m, u);
    hide Way, Onward, Lands, SomeSteps, WellFormed, AtMostOnce;
    RivalsPass(f, src, dst, p, m, u, q, d, u[0], h, g);
  }

  lemma ClimbPlaces(src: Path, dst: Path, d: nat, u: Path, r: Path)
    requires Over(src, dst) && Leaves(src, dst, d, u, r)
    ensures var s := |src| - |dst|; var a, b := Child(Way(src, dst, d), u[0]), Child(Way(src, dst, d - s), u[0]);
      && Under(src, r) && a + u[1..] == r && b + u[1..] == Rebase(r, src, dst) && Apart(a, b)
      && Under(Way(src, dst, d - s), r) && Way(src, dst, d - s) != r && |Rebase(r, src, dst)| == |r| - s
      && u[0] != Onward(src, dst, d)
  {
    hide Way, Onward;
    var s := |src| - |dst|;
    LeavesUnder(src, dst, d, u, r);
    LeavesShift(src, dst, d, u, r);
    WayPair(src, dst, d);
    WayPrefix(src, dst, d - s, d);
    var a, b := Child(Way(src, dst, d), u[0]), Child(Way(src, dst, d - s), u[0]);
    assert u == [u[0]] + u[1..];
    assert a[d - s] == Onward(src, dst, d) && b[d - s] == u[0];
  }

  // ----- the whole run

  /** After the merge of the directory at depth `d` on the way: the file is gone, or its nearest
      rival leaves the way less than a round before. */
  ghost predicate Struck(f: FS, src: Path, dst: Path, p: Path, u: Path, node: Node, h: FS, d: nat) {
    node !in h.Values ||
    exists r :: Nearest(f, src, dst, p, node, h, r) && |r| - |u| < d <= |r| - |u| + (|src| - |dst|)
  }

  /** While that merge goes through `names`: the nearest rival is an entry that waits, or has
      had its turn, or is none of the entries. */
  ghost predicate Striking(f: FS, src: Path, dst: Path, p: Path, u: Path, node: Node, h: FS, d: nat, names: seq<Name>)
    requires Over(src, dst) && u != []
  {
    node !in h.Values ||
    exists r :: Nearest(f, src, dst, p, node, h, r) &&
      var n, e := |r| - |u|, d - (|src| - |dst|);
      && e <= n <= d
      && (n == d ==> u[0] in names)
      && (Onward(src, dst, d) in names ==> n <= e)
      && (n == e ==> u[0] !in names)
  }

  lemma {:induction false} RestStrikes(c: Chance, f: FS, src: Path, dst: Path, p: Path, m: nat, u: Path, node: Node,
                                       h: FS, d: nat, names: seq<Name>, k: nat)
    requires FileOff(f, src, dst, p, m, u) && ListsAll(c) && d >= |src| && WellFormed(h)
    requires Striking(f, src, dst, p, u, node, h, d, names)
    requires forall i, j :: 0 <= i < j < |names| ==> names[i] != names[j]
    requires var a, b := Way(src, dst, d), Way(src, dst, d - (|src| - |dst|));
      MovingAll(c, h, a, b, ReplaceAll, names, k).Some?
    ensures var a, b := Way(src, dst, d), Way(src, dst, d - (|src| - |dst|));
      Struck(f, src, dst, p, u, node, MovingAll(c, h, a, b, ReplaceAll, names, k).value, d)
    decreases |names|
  {
    hide Way, Onward, Lands, Moving, SomeSteps, Steps, WellFormed, AtMostOnce, ListsAll, Nearest;
    if names != [] {
      var name, rest := names[0], names[1..];
      var a, b := Way(src, dst, d), Way(src, dst, d - (|src| - |dst|));
      WayPair(src, dst, d);
      ChildNotInside(a, b, name);
      MovingSteps(c, h, Child(a, name), Child(b, name), ReplaceAll, k);
      var g := Moving(c, h, Child(a, name), Child(b, name), ReplaceAll, k).value;
      NothingNew(h, g, Child(a, name), Child(b, name));
      EntryStrikes(c, f, src, dst, p, m, u, node, h, d, names, k);
      RestStrikes(c, f, src, dst, p, m, u, node, g, d, rest, k);
    }
  }

  lemma EntryStrikes(c: Chance, f: FS, src: Path, dst: Path, p: Path, m: nat, u: Path, node: Node, h: FS, d: nat,
                     names: seq<Name>, k: nat)
    requires FileOff(f, src, dst, p, m, u) && ListsAll(c) && d >= |src| && names != []
    requires Striking(f, src, dst, p, u, node, h, d, names)
    requires forall i, j :: 0 <= i < j < |names| ==> names[i] != names[j]
    requires var a, b := Child(Way(src, dst, d), names[0]), Child(Way(src, dst, d - (|src| - |dst|)), names[0]);
      Moving(c, h, a, b, ReplaceAll, k).Some?
      && (node !in h.Values ==> node !in Moving(c, h, a, b, ReplaceAll, k).value.Values)
    ensures var a, b := Child(Way(src, dst, d), names[0]), Child(Way(src, dst, d - (|src| - |dst|)), names[0]);
      Striking(f, src, dst, p, u, node, Moving(c, h, a, b, ReplaceAll, k).value, d, names[1..])
  {
    hide Way, Onward, Lands, Moving, ListsAll, Nearest;
    var name := names[0];
    assert name !in names[1..] && forall x :: x in names[1..] ==> x in names;
    if node in h.Values {
      var r :| Nearest(f, src, dst, p, node, h, r) &&
        var n, e := |r| - |u|, d - (|src| - |dst|);
        && e <= n <= d && (n == d ==> u[0] in names) && (Onward(src, dst, d) in names ==> n <= e)
        && (n == e ==> u[0] !in names);
      if |r| - |u| == d && name == u[0] {
        RivalClimbs(c, f, src, dst, p, m, u, node, h, r, d, k);
        OnwardOther(f, src, dst, p, m, u, node, h, r, d);
      } else {
        EntryPasses(c, f, src, dst, p, m, u, node, h, r, d, name, k);
      }
    }
  }

  lemma OnwardOther(f: FS, src: Path, dst: Path, p: Path, m: nat, u: Path, node: Node, h: FS, r: Path, d: nat)
    requires FileOff(f, src, dst, p, m, u) && Nearest(f, src, dst, p, node, h, r) && |r| == d + |u| && d >= |src|
    ensures Under(src, r) && |Rebase(r, src, dst)| == |r| - (|src| - |dst|) && u[0] != Onward(src, dst, d)
  {
    hide Way, Onward, Lands, Leaves, Nearest, WellFormed;
    NearestIs(f, src, dst, p, node, h, r);
    RivalDepth(f, src, dst, r, p, m, u);
    ClimbPlaces(src, dst, d, u, r);
  }

  /** The way from the source down to the place where the rival `r` leaves it, and the first
      name after that. */
  function DownTo(src: Path, r: Path, u: Path): Path
    requires Under(src, r) && |r| >= |u| + |src| && u != []
  {
    r[|src|..|r| - |u| + 1]
  }

  lemma DownAt(src: Path, dst: Path, r: Path, n: nat, u: Path, j: nat)
    requires Over(src, dst) && Leaves(src, dst, n, u, r) && j <= n - |src|
    ensures Under(src, r) && |r| == n + |u|
    ensures var way := DownTo(src, r, u);
      && |way| == n - |src| + 1
      && src + way[..j] == Way(src, dst, |src| + j) && dst + way[..j] == Way(src, dst, |dst| + j)
      && way[j] == if j < n - |src| then Onward(src, dst, |src| + j) else u[0]
  {
    hide Way, Onward;
    LeavesUnder(src, dst, n, u, r);
    var way := DownTo(src, r, u);
    WayPrefix(src, dst, |src| + j, n);
    WayShift(src, dst, |src| + j);
    WaySource(src, dst, |src| + j);
    assert src + way[..j] == r[..|src| + j] == Way(src, dst, n)[..|src| + j];
    if j < n - |src| { WayAt(src, dst, |src| + j, n); }
  }

  lemma DownMerges(f: FS, src: Path, dst: Path, r: Path, n: nat, u: Path)
    requires WellFormed(f) && Over(src, dst) && Leaves(src, dst, n, u, r) && r in f
    ensures Under(src, r) && |r| == n + |u| && MergesDown(f, src, dst, DownTo(src, r, u))
  {
    hide Way, Onward, WellFormed;
    LeavesUnder(src, dst, n, u, r);
    var way := DownTo(src, r, u);
    forall j: nat | j < |way| ensures IsDir(f, src + way[..j]) && IsDir(f, dst + way[..j]) {
      DownAt(src, dst, r, n, u, j);
      assert src + way[..j] == r[..|src| + j];
      Ancestors(f, src + way[..j], r);
      WayPrefix(src, dst, |dst| + j, |src| + j);
      Ancestors(f, dst + way[..j], r);
    }
  }

  lemma DownThere(f: FS, src: Path, dst: Path, r: Path, n: nat, u: Path, j: nat)
    requires WellFormed(f) && Over(src, dst) && Leaves(src, dst, n, u, r) && r in f && j <= n - |src|
    ensures Under(src, r) && |r| == n + |u| && u != []
    ensures IsDir(f, Way(src, dst, |src| + j)) && src + DownTo(src, r, u)[..j + 1] in f
  {
    hide Way, Onward, WellFormed;
    LeavesUnder(src, dst, n, u, r);
    DownAt(src, dst, r, n, u, j);
    var way := DownTo(src, r, u);
    assert src + way[..j] == r[..|src| + j] && src + way[..j + 1] == r[..|src| + j + 1];
    Ancestors(f, src + way[..j], r);
    Ancestors(f, src + way[..j + 1], r);
  }

  /** Down the way, and up again, until the nearest rival `r` and what it becomes have had their
      turns. */
  lemma {:induction false} DownAndUp(c: Chance, f: FS, src: Path, dst: Path, p: Path, m: nat, u: Path, r: Path, n: nat,
                                     j: nat, k: nat)
    requires FileOff(f, src, dst, p, m, u) && Nearest(f, src, dst, p, f[p], f, r) && Leaves(src, dst, n, u, r)
    requires Under(src, r) && |r| >= |u| + |src| && ListsAll(c) && WayFirst(c, src, DownTo(src, r, u))
    requires j <= n - |src|
    requires Moving(c, f, Way(src, dst, |src| + j), Way(src, dst, |dst| + j), ReplaceAll, k).Some?
    ensures
      var h := Moving(c, f, Way(src, dst, |src| + j), Way(src, dst, |dst| + j), ReplaceAll, k).value;
      WellFormed(h) && Struck(f, src, dst, p, u, f[p], h, |src| + j)
    decreases n - j
  {
    hide Way, Onward, Lands, Moving, MovingAll, SomeSteps, Steps, WellFormed, AtMostOnce, ListsAll, WayFirst, Nearest,
         Leaves, MergesDown, Struck, Striking, Lists, Emptied, DownTo, Listing;
    NearestIs(f, src, dst, p, f[p], f, r);
    DownThere(f, src, dst, r, n, u, j);
    var node, d, way := f[p], |src| + j, DownTo(src, r, u);
    var a, b := Way(src, dst, d), Way(src, dst, |dst| + j);
    DownMerges(f, src, dst, r, n, u);
    DownAt(src, dst, r, n, u, j);
    MoveDown(c, f, src, dst, way, j, k);
    WayPair(src, dst, d);
    var names := c.order(a, Listing(f, a));
    var x, y := Child(a, way[j]), Child(b, way[j]);
    assert src + way[..j + 1] == x && dst + way[..j + 1] == y;
    var h := Moving(c, f, x, y, ReplaceAll, k - 1).value;
    ChildNotInside(a, b, way[j]);
    MovingSteps(c, f, x, y, ReplaceAll, k - 1);
    if j < n - |src| {
      DownAndUp(c, f, src, dst, p, m, u, r, n, j + 1, k - 1);
      RestAfterUp(f, src, dst, p, m, u, node, h, d, a, names);
    } else {
      RivalClimbs(c, f, src, dst, p, m, u, node, f, r, d, k - 1);
      RestAfterClimb(f, src, dst, p, m, u, node, h, r, d, a, names);
    }
    DistinctRest(names, Listing(f, a));
    RestStrikes(c, f, src, dst, p, m, u, node, h, d, names[1..], k - 1);
    var g := MovingAll(c, h, a, b, ReplaceAll, names[1..], k - 1).value;
    MovingAllSteps(c, h, a, b, ReplaceAll, names[1..], k - 1);
    StruckEmptied(f, src, dst, p, m, u, node, g, d, a);
  }

  lemma DistinctRest(names: seq<Name>, s: set<Name>)
    requires Lists(names, s) && names != []
    ensures names[0] !in names[1..] && forall i, j :: 0 <= i < j < |names[1..]| ==> names[1..][i] != names[1..][j]
  {
  }

  /** The directory at depth `d` lists the rival's root, if that is an entry of it. */
  lemma RestAfterUp(f: FS, src: Path, dst: Path, p: Path, m: nat, u: Path, node: Node, h: FS, d: nat, a: Path,
                    names: seq<Name>)
    requires FileOff(f, src, dst, p, m, u) && d >= |src| && a == Way(src, dst, d) && a in f
    requires Struck(f, src, dst, p, u, node, h, d + 1)
    requires Lists(names, Listing(f, a)) && names != [] && names[0] == Onward(src, dst, d)
    ensures Striking(f, src, dst, p, u, node, h, d, names[1..])
  {
    hide Way, Onward, Lands, WellFormed, Leaves, Lists, Nearest, Listing;
    DistinctRest(names, Listing(f, a));
    if node in h.Values {
      var r :| Nearest(f, src, dst, p, node, h, r) && |r| - |u| < d + 1 <= |r| - |u| + (|src| - |dst|);
      if |r| - |u| == d { RootListed(f, src, dst, p, m, u, node, h, r, d, a, names); }
    }
  }

  lemma RootListed(f: FS, src: Path, dst: Path, p: Path, m: nat, u: Path, node: Node, h: FS, r: Path, d: nat, a: Path,
                   names: seq<Name>)
    requires FileOff(f, src, dst, p, m, u) && Nearest(f, src, dst, p, node, h, r) && |r| == d + |u| && d >= |src|
    requires a == Way(src, dst, d) && Lists(names, Listing(f, a)) && names != [] && names[0] == Onward(src, dst, d)
    ensures u[0] in names[1..]
  {
    hide Way, Onward, Lands, WellFormed;
    RivalDepth(f, src, dst, r, p, m, u);
    LandsUnfolds(f.Keys, src, dst, r, p);
    WaySource(src, dst, |src|);
    WayShift(src, dst, |src|);
    RootOff(src, dst, |src|, d, u);
    var z := Child(a, u[0]);
    assert z in f && z != [] && Parent(z) == a && Leaf(z) == u[0];
    assert u[0] in Listing(f, a) && u[0] in (set x | x in names);
  }

  lemma RestAfterClimb(f: FS, src: Path, dst: Path, p: Path, m: nat, u: Path, node: Node, h: FS, r: Path, d: nat,
                       a: Path, names: seq<Name>)
    requires FileOff(f, src, dst, p, m, u) && Nearest(f, src, dst, p, node, f, r) && |r| == d + |u| && d >= |src|
    requires node !in h.Values || (Under(src, r) && Nearest(f, src, dst, p, node, h, Rebase(r, src, dst)))
    requires Lists(names, Listing(f, a)) && names != [] && names[0] == u[0]
    ensures Striking(f, src, dst, p, u, node, h, d, names[1..])
  {
    hide Way, Onward, Lands, WellFormed, Leaves, Lists, Nearest, Listing;
    DistinctRest(names, Listing(f, a));
    OnwardOther(f, src, dst, p, m, u, node, f, r, d);
  }

  /** Removing the emptied directory changes nothing about that. */
  lemma StruckEmptied(f: FS, src: Path, dst: Path, p: Path, m: nat, u: Path, node: Node, g: FS, d: nat, a: Path)
    requires FileOff(f, src, dst, p, m, u) && Struck(f, src, dst, p, u, node, g, d) && WellFormed(g)
    requires d >= |src| && a == Way(src, dst, d)
    ensures WellFormed(Emptied(g, a)) && Struck(f, src, dst, p, u, node, Emptied(g, a), d)
  {
    hide Way, Onward, Lands, Leaves, Nearest;
    var h := Emptied(g, a);
    WaySource(src, dst, d);
    if h != g { RemoveWellFormed(g, a); }
    if node in g.Values {
      var r :| Nearest(f, src, dst, p, node, g, r) && |r| - |u| < d <= |r| - |u| + (|src| - |dst|);
      NearestEmptied(f, src, dst, p, m, u, node, g, h, d, r);
    }
  }

  lemma NearestEmptied(f: FS, src: Path, dst: Path, p: Path, m: nat, u: Path, node: Node, g: FS, h: FS, d: nat, r: Path)
    requires FileOff(f, src, dst, p, m, u) && Nearest(f, src, dst, p, node, g, r) && WellFormed(h)
    requires var a := Way(src, dst, d); h == g || (h == g - {a} && IsDir(g, a))
    ensures Nearest(f, src, dst, p, node, h, r)
  {
    hide Way, Onward, Lands, WellFormed;
    RivalDepth(f, src, dst, r, p, m, u);
    NotOnWay(src, dst, |r| - |u|, d, u, r);
  }

  lemma {:induction false} Shortest(rivals: set<Path>) returns (r: Path)
    requires rivals != {}
    ensures r in rivals && forall x :: x in rivals ==> |x| >= |r|
    decreases |rivals|
  {
    r :| r in rivals;
    if x :| x in rivals && |x| < |r| {
      var rest := set y | y in rivals && |y| < |r|;
      assert x in rest && r in rivals && r !in rest;
      SubsetSize(rest, rivals);
      r := Shortest(rest);
    }
  }

  /** If something in the source can come to stand in the file's place, there is a run in which
      the file is lost. */
  lemma RivalLosesFile(f: FS, src: Path, dst: Path, p: Path) returns (c: Chance, k: nat)
    requires WellFormed(f) && !Under(src, dst) && dst != [] && Under(src, p) && p in f && !IsDir(f, p) && Unique(f, p)
    requires !Alone(f.Keys, f, src, dst, p)
    ensures Moving(c, f, src, dst, ReplaceAll, k).Some?
    ensures f[p] !in Moving(c, f, src, dst, ReplaceAll, k).value.Values
  {
    hide Way, Onward, Lands, Moving, WellFormed, ListsAll, WayFirst, Leaves, DownTo;
    var rivals := set x | x in f && Lands(f.Keys, src, dst, x, p);
    var any :| any in f && Lands(f.Keys, src, dst, any, p);
    assert any in rivals;
    var r := Shortest(rivals);
    OnlyOver(f, src, dst, r, p);
    var n, m, u := RivalLeaves(f, src, dst, r, p);
    LeavesIs(src, dst, n, u, r);
    LeavesUnder(src, dst, n, u, r);
    c := SomeChance(src, DownTo(src, r, u), x => false);
    k := Depth(f) + 1;
    DepthBounds(f);
    MovingEnds(c, f, src, dst, ReplaceAll, k, Depth(f));
    WaySource(src, dst, |src|);
    assert Nearest(f, src, dst, p, f[p], f, r);
    DownAndUp(c, f, src, dst, p, m, u, r, n, 0, k);
    var h := Moving(c, f, src, dst, ReplaceAll, k).value;
    if f[p] in h.Values {
      var x :| Nearest(f, src, dst, p, f[p], h, x) && |x| - |u| < |src| <= |x| - |u| + (|src| - |dst|);
      RivalDepth(f, src, dst, x, p, m, u);
      LeavesIs(src, dst, |x| - |u|, u, x);
    }
  }

  lemma LeavesIs(src: Path, dst: Path, n: nat, u: Path, x: Path)
    requires Over(src, dst) && Leaves(src, dst, n, u, x)
    ensures n >= |src| && u != []
  {
  }

  lemma OnlyOver(f: FS, src: Path, dst: Path, r: Path, p: Path)
    requires !Under(src, dst) && Under(src, p) && Lands(f.Keys, src, dst, r, p)
    ensures Over(src, dst)
  {
    ApartOrOver(src, dst);
    if Apart(src, dst) { ApartAt(src, dst, p); }
  }

  /** Exactly when a move that is left to a policy keeps a file or link of the source, which is
      the only one of its kind and has its counterpart outside the source, whatever the policy
      and the order of the listings: when nothing can come to stand in its place. */
  lemma FileKeptIff(f: FS, src: Path, dst: Path, p: Path)
    requires WellFormed(f) && !Under(src, dst) && dst != [] && Under(src, p) && p in f && !IsDir(f, p) && Unique(f, p)
    requires !Under(src, Rebase(p, src, dst))
    ensures Alone(f.Keys, f, src, dst, p) <==>
              forall c: Chance, policy: Policy, k: nat :: Moving(c, f, src, dst, policy, k).Some? ==>
                Kept(f, Moving(c, f, src, dst, policy, k).value, p, Rebase(p, src, dst))
  {
    hide Moving, WellFormed, Alone, Steps, SomeSteps;
    if Alone(f.Keys, f, src, dst, p) {
      forall c: Chance, policy: Policy, k: nat | Moving(c, f, src, dst, policy, k).Some?
        ensures Kept(f, Moving(c, f, src, dst, policy, k).value, p, Rebase(p, src, dst))
      {
        MovingSteps(c, f, src, dst, policy, k);
        FileKept(f, Moving(c, f, src, dst, policy, k).value, src, dst, p);
      }
    } else {
      var c, k := RivalLosesFile(f, src, dst, p);
    }
  }

  /** Exactly when no move that is left to a policy loses a file or link of the source that is
      the only one of its kind, wherever its counterpart lies. */
  lemma NeverLostIff(f: FS, src: Path, dst: Path, p: Path)
    requires WellFormed(f) && !Under(src, dst) && dst != [] && Under(src, p) && p in f && !IsDir(f, p) && Unique(f, p)
    ensures Alone(f.Keys, f, src, dst, p) <==>
              forall c: Chance, policy: Policy, k: nat :: Moving(c, f, src, dst, policy, k).Some? ==>
                f[p] in Moving(c, f, src, dst, policy, k).value.Values
  {
    hide Moving, WellFormed, Alone, Steps, SomeSteps;
    if Alone(f.Keys, f, src, dst, p) {
      forall c: Chance, policy: Policy, k: nat | Moving(c, f, src, dst, policy, k).Some?
        ensures f[p] in Moving(c, f, src, dst, policy, k).value.Values
      {
        MovingSteps(c, f, src, dst, policy, k);
        var z := FileNotLost(f, Moving(c, f, src, dst, policy, k).value, src, dst, p);
      }
    } else {
      var c, k := RivalLosesFile(f, src, dst, p);
    }
  }
}
