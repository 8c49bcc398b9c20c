/** A move as the sequence of what it does to the tree: whatever the paths, the answers and the
    failures, do_move2 changes it by no other steps than these. */
module ActionSteps {
  import opened FileTree
  import opened ActionWorld
  import opened ActionConflict

  /** For an entry `p` and its counterpart `q`: what stands at `q` is removed to make room, `p`
      is renamed to `q`, or `p` is an empty directory and is removed. */
  ghost predicate StepAt(f: FS, g: FS, p: Path, q: Path) {
    || (q in f && !(IsDir(f, p) && IsDir(f, q)) && (IsDir(f, q) ==> Listing(f, q) == {}) && g == f - {q})
    || Renames(f, g, p, q)
    || (IsDir(f, p) && Listing(f, p) == {} && g == f - {p})
  }

  ghost predicate Renames(f: FS, g: FS, p: Path, q: Path) {
    Apart(p, q) && (forall x :: x in f ==> !Under(q, x)) && g == Renamed(f, p, q)
  }

  /** Where the way from `src` to `p` leaves the way to the directories that a destination
      containing the source leads back into. */
  function Root(src: Path, dst: Path, p: Path): (r: Path)
    requires Under(src, p)
    ensures Under(src, r) && Under(r, p)
    decreases |p| - |src|
  {
    if p == src || !Over(src, dst) then src else Root(Child(src, p[|src|]), Child(dst, p[|src|]), p)
  }

  /** A step for an entry whose root is one of `roots`: only what a directory lists when its turn
      comes gets its turn in it. */
  ghost predicate OneStep(roots: set<Path>, f: FS, g: FS, src: Path, dst: Path) {
    exists p :: p in f && Under(src, p) && Root(src, dst, p) in roots && StepAt(f, g, p, Rebase(p, src, dst))
  }

  ghost predicate Trace(roots: set<Path>, t: seq<FS>, src: Path, dst: Path) {
    t != [] && forall i :: 0 <= i < |t| - 1 ==> WellFormed(t[i]) && OneStep(roots, t[i], t[i + 1], src, dst)
  }

  /** Some such steps lead from `f` to `g`. */
  ghost predicate Steps(roots: set<Path>, f: FS, g: FS, src: Path, dst: Path) {
    exists t :: Trace(roots, t, src, dst) && t[0] == f && t[|t| - 1] == g
  }

  /** Whatever the roots. */
  ghost predicate SomeSteps(f: FS, g: FS, src: Path, dst: Path) {
    exists roots :: Steps(roots, f, g, src, dst)
  }

  lemma NoSteps(roots: set<Path>, f: FS, src: Path, dst: Path)
    ensures Steps(roots, f, f, src, dst) && SomeSteps(f, f, src, dst)
  {
    var t := [f];
    assert Trace(roots, t, src, dst) && t[0] == f && t[|t| - 1] == f;
    assert Steps(roots, f, f, src, dst);
  }

  lemma StepsOne(roots: set<Path>, f: FS, g: FS, src: Path, dst: Path)
    requires WellFormed(f) && src in f && src in roots && StepAt(f, g, src, dst)
    ensures Steps(roots, f, g, src, dst)
  {
    var t := [f, g];
    assert Rebase(src, src, dst) == dst && Root(src, dst, src) == src;
    assert Trace(roots, t, src, dst) && t[0] == f && t[|t| - 1] == g;
  }

  lemma StepsThen(roots: set<Path>, f: FS, g: FS, h: FS, src: Path, dst: Path)
    requires Steps(roots, f, g, src, dst) && Steps(roots, g, h, src, dst)
    ensures Steps(roots, f, h, src, dst)
  {
    hide OneStep, WellFormed;
    var t :| Trace(roots, t, src, dst) && t[0] == f && t[|t| - 1] == g;
    var u :| Trace(roots, u, src, dst) && u[0] == g && u[|u| - 1] == h;
    var all := t + u[1..];
    forall i | 0 <= i < |all| - 1 ensures WellFormed(all[i]) && OneStep(roots, all[i], all[i + 1], src, dst) {
      if i + 1 < |t| {
        assert all[i] == t[i] && all[i + 1] == t[i + 1];
      } else {
        assert all[i] == u[i + 1 - |t|] && all[i + 1] == u[i + 1 - |t| + 1];
      }
    }
    assert Trace(roots, all, src, dst) && all[0] == f && all[|all| - 1] == h;
  }

  lemma StepsMore(roots: set<Path>, more: set<Path>, f: FS, g: FS, src: Path, dst: Path)
    requires Steps(roots, f, g, src, dst) && roots <= more
    ensures Steps(more, f, g, src, dst)
  {
    var t :| Trace(roots, t, src, dst) && t[0] == f && t[|t| - 1] == g;
    forall i | 0 <= i < |t| - 1 ensures OneStep(more, t[i], t[i + 1], src, dst) {
      assert OneStep(roots, t[i], t[i + 1], src, dst);
    }
    assert Trace(more, t, src, dst);
  }

  /** The steps for a child are steps for the directory, if the child is one of its roots and,
      should it lead back as well, so are the roots below it. */
  lemma StepsChild(roots: set<Path>, more: set<Path>, f: FS, g: FS, src: Path, dst: Path, n: Name)
    requires Steps(roots, f, g, Child(src, n), Child(dst, n)) && !Under(src, dst)
    requires Child(src, n) in more && (Apart(src, dst) ==> src in more)
    requires Over(Child(src, n), Child(dst, n)) ==> forall x :: x in roots && Under(Child(src, n), x) ==> x in more
    ensures Steps(more, f, g, src, dst)
  {
    var c, d := Child(src, n), Child(dst, n);
    ApartOrOver(src, dst);
    var t :| Trace(roots, t, c, d) && t[0] == f && t[|t| - 1] == g;
    forall i | 0 <= i < |t| - 1 ensures OneStep(more, t[i], t[i + 1], src, dst) {
      assert OneStep(roots, t[i], t[i + 1], c, d);
      var p :| p in t[i] && Under(c, p) && Root(c, d, p) in roots && StepAt(t[i], t[i + 1], p, Rebase(p, c, d));
      UnderTrans(src, c, p);
      RebaseUnder(src, dst, n, p);
      assert p[|src|] == n;
    }
    assert Trace(more, t, src, dst);
  }

  lemma SomeThen(f: FS, g: FS, h: FS, src: Path, dst: Path)
    requires SomeSteps(f, g, src, dst) && SomeSteps(g, h, src, dst)
    ensures SomeSteps(f, h, src, dst)
  {
    hide Steps;
    var a :| Steps(a, f, g, src, dst);
    var b :| Steps(b, g, h, src, dst);
    StepsMore(a, a + b, f, g, src, dst);
    StepsMore(b, a + b, g, h, src, dst);
    StepsThen(a + b, f, g, h, src, dst);
  }

  lemma SomeChild(f: FS, g: FS, src: Path, dst: Path, n: Name)
    requires SomeSteps(f, g, Child(src, n), Child(dst, n)) && !Under(src, dst)
    ensures SomeSteps(f, g, src, dst)
  {
    hide Steps;
    var a :| Steps(a, f, g, Child(src, n), Child(dst, n));
    StepsChild(a, a + {src, Child(src, n)}, f, g, src, dst, n);
  }

  /** The first half of do_move2. */
  lemma StepsCleared(f: FS, f1: FS, src: Path, dst: Path, policy: Policy)
    requires WellFormed(f) && WellFormed(f1) && Cleared(f, f1, src, dst, policy)
    ensures Steps(f.Keys, f, f1, src, dst)
  {
    NoSteps(f.Keys, f, src, dst);
    if f1 != f {
      NothingBelow(f1, dst);
      if IsDir(f, dst) {
        if n :| n in Listing(f, dst) { ListingSound(f, dst, n); }
      }
      StepsOne(f.Keys, f, f1, src, dst);
    }
  }

  lemma StepsRenamed(f: FS, f1: FS, src: Path, dst: Path)
    requires WellFormed(f1) && Apart(src, dst) && src in f && src in f1 && forall x :: x in f1 ==> !Under(dst, x)
    requires Steps(f.Keys, f, f1, src, dst)
    ensures Steps(f.Keys, f, Renamed(f1, src, dst), src, dst)
  {
    StepsOne(f.Keys, f1, Renamed(f1, src, dst), src, dst);
    StepsThen(f.Keys, f, f1, Renamed(f1, src, dst), src, dst);
  }

  /** The rmdir after a merge. */
  lemma StepsEmptied(f: FS, g: FS, src: Path, dst: Path)
    requires WellFormed(g) && src in f && Steps(f.Keys, f, g, src, dst) && IsDir(g, src) && Listing(g, src) == {}
    ensures Steps(f.Keys, f, g - {src}, src, dst)
  {
    StepsOne(f.Keys, g, g - {src}, src, dst);
    StepsThen(f.Keys, f, g, g - {src}, src, dst);
  }

  /** No step changes anything that is neither in the source nor in the destination. */
  lemma StepsFrame(f: FS, g: FS, src: Path, dst: Path, x: Path)
    requires SomeSteps(f, g, src, dst) && !Under(src, x) && !Under(dst, x)
    ensures Same(f, g, x)
  {
    var roots :| Steps(roots, f, g, src, dst);
    var t :| Trace(roots, t, src, dst) && t[0] == f && t[|t| - 1] == g;
    FrameAlong(roots, t, |t| - 1, src, dst, x);
  }

  lemma {:induction false} FrameAlong(roots: set<Path>, t: seq<FS>, i: nat, src: Path, dst: Path, x: Path)
    requires Trace(roots, t, src, dst) && i < |t| && !Under(src, x) && !Under(dst, x)
    ensures Same(t[0], t[i], x)
  {
    hide OneStep, WellFormed;
    if i > 0 {
      FrameAlong(roots, t, i - 1, src, dst, x);
      assert OneStep(roots, t[i - 1], t[i - 1 + 1], src, dst);
      FrameStep(roots, t[i - 1], t[i], src, dst, x);
    }
  }

  lemma FrameStep(roots: set<Path>, g: FS, h: FS, src: Path, dst: Path, x: Path)
    requires OneStep(roots, g, h, src, dst) && !Under(src, x) && !Under(dst, x)
    ensures Same(g, h, x)
  {
    var p :| p in g && Under(src, p) && StepAt(g, h, p, Rebase(p, src, dst));
    var q := Rebase(p, src, dst);
    if Under(p, x) { UnderTrans(src, p, x); }
    if Under(q, x) { UnderTrans(dst, q, x); }
    if Renames(g, h, p, q) { RenamedAt(g, p, q, x); }
  }

  // ----- what the steps keep

  /** By such steps, what is at `r` can come to stand at `p`: it can get its turn, and its
      counterpart is `p` or can come to stand there. */
  predicate Lands(roots: set<Path>, src: Path, dst: Path, r: Path, p: Path)
    decreases |r|
  {
    && Under(src, r) && Root(src, dst, r) in roots
    && (Rebase(r, src, dst) == p || (Over(src, dst) && Lands(roots, src, dst, Rebase(r, src, dst), p)))
  }

  /** Nothing in the tree can come to stand at `p`. */
  ghost predicate Alone(roots: set<Path>, f: FS, src: Path, dst: Path, p: Path) {
    forall r :: r in f ==> !Lands(roots, src, dst, r, p)
  }

  /** What is moved as a whole has one root. */
  lemma {:induction false} RootDown(src: Path, dst: Path, x: Path, q: Path)
    requires Under(src, x) && Under(x, q) && !Over(x, Rebase(x, src, dst))
    ensures Under(src, q) && Root(src, dst, q) == Root(src, dst, x)
    decreases |x| - |src|
  {
    UnderTrans(src, x, q);
    if Over(src, dst) {
      assert x != src by { assert Rebase(src, src, dst) == dst; }
      var n := x[|src|];
      UnderChild(src, x);
      RebaseUnder(src, dst, n, x);
      assert q[|src|] == n;
      RootDown(Child(src, n), Child(dst, n), x, q);
    }
  }

  /** The file or link at `p` is there, unchanged, and its counterpart `q` is as it was or has
      been removed; or it is at `q`, unchanged. */
  ghost predicate Kept(f: FS, g: FS, p: Path, q: Path)
    requires p in f
  {
    || (p in g && g[p] == f[p] && (q !in g || Same(f, g, q)))
    || (p !in g && q in g && g[q] == f[p])
  }

  lemma RebaseOnto(o: Path, p: Path, src: Path, dst: Path)
    requires Under(src, p) && Under(p, o)
    ensures Under(src, o) && Rebase(o, p, Rebase(p, src, dst)) == Rebase(o, src, dst)
  {
  }

  lemma AloneStep(roots: set<Path>, g: FS, h: FS, src: Path, dst: Path, p: Path)
    requires !Under(src, dst) && Alone(roots, g, src, dst, p) && OneStep(roots, g, h, src, dst)
    ensures Alone(roots, h, src, dst, p)
  {
    var x :| x in g && Under(src, x) && Root(src, dst, x) in roots && StepAt(g, h, x, Rebase(x, src, dst));
    var y := Rebase(x, src, dst);
    forall r | r in h ensures !Lands(roots, src, dst, r, p) {
      if r !in g {
        RenamedAt(g, x, y, r);
        var o := Rebase(r, y, x);
        RebaseOnto(o, x, src, dst);
        RootDown(src, dst, x, o);
        ApartOrOver(src, dst);
        if Apart(src, dst) { ApartAt(dst, src, r); }
        assert !Lands(roots, src, dst, o, p);
      }
    }
  }

  lemma KeptStep(roots: set<Path>, f: FS, g: FS, h: FS, src: Path, dst: Path, p: Path)
    requires Under(src, p) && p in f && !IsDir(f, p) && !Under(src, Rebase(p, src, dst))
    requires Kept(f, g, p, Rebase(p, src, dst)) && Alone(roots, g, src, dst, p) && OneStep(roots, g, h, src, dst)
    ensures Kept(f, h, p, Rebase(p, src, dst))
  {
    hide Root, Lands, Renamed, Listing;
    var q := Rebase(p, src, dst);
    var x :| x in g && Under(src, x) && Root(src, dst, x) in roots && StepAt(g, h, x, Rebase(x, src, dst));
    LandsFirst(roots, src, dst, x);
    if Under(x, q) { UnderTrans(src, x, q); }
    if Renames(g, h, x, Rebase(x, src, dst)) {
      KeptRenamed(roots, f, g, h, src, dst, p, x);
    }
  }

  lemma KeptRenamed(roots: set<Path>, f: FS, g: FS, h: FS, src: Path, dst: Path, p: Path, x: Path)
    requires Under(src, p) && p in f && !IsDir(f, p) && !Under(src, Rebase(p, src, dst))
    requires Kept(f, g, p, Rebase(p, src, dst)) && Alone(roots, g, src, dst, p)
    requires x in g && Under(src, x) && Root(src, dst, x) in roots && Renames(g, h, x, Rebase(x, src, dst))
    ensures Kept(f, h, p, Rebase(p, src, dst))
  {
    hide Root, Lands, Renamed;
    var q, y := Rebase(p, src, dst), Rebase(x, src, dst);
    if Under(x, q) { UnderTrans(src, x, q); }
    RenamedAt(g, x, y, p);
    RenamedAt(g, x, y, q);
    if Under(y, p) {
      var o := Rebase(p, y, x);
      RebaseOnto(o, x, src, dst);
      RootDown(src, dst, x, o);
      LandsFirst(roots, src, dst, o);
      assert o !in g;
    }
    if Under(y, q) {
      var o := Rebase(q, y, x);
      RebaseOnto(o, x, src, dst);
      assert o == p;
    }
    if Under(x, p) { RebaseOnto(p, x, src, dst); }
  }

  lemma {:induction false} KeptAlong(roots: set<Path>, f: FS, t: seq<FS>, i: nat, src: Path, dst: Path, p: Path)
    requires Trace(roots, t, src, dst) && i < |t| && t[0] == f && !Under(src, dst)
    requires Under(src, p) && p in f && !IsDir(f, p) && !Under(src, Rebase(p, src, dst)) && Alone(roots, f, src, dst, p)
    ensures Kept(f, t[i], p, Rebase(p, src, dst)) && Alone(roots, t[i], src, dst, p)
  {
    hide Alone, Kept, OneStep, WellFormed;
    if i == 0 {
      assert Kept(f, t[0], p, Rebase(p, src, dst)) by { KeptSelf(f, p, Rebase(p, src, dst)); }
    } else {
      KeptAlong(roots, f, t, i - 1, src, dst, p);
      assert OneStep(roots, t[i - 1], t[i - 1 + 1], src, dst);
      KeptStep(roots, f, t[i - 1], t[i], src, dst, p);
      AloneStep(roots, t[i - 1], t[i], src, dst, p);
    }
  }

  lemma KeptSelf(f: FS, p: Path, q: Path)
    requires p in f
    ensures Kept(f, f, p, q)
  {
  }

  /** Wherever a move goes, whatever the answers and failures: a file or link whose counterpart
      lies outside the source is kept, if nothing else can come to stand in its place. */
  lemma FileKept(f: FS, g: FS, src: Path, dst: Path, p: Path)
    requires !Under(src, dst) && Steps(f.Keys, f, g, src, dst)
    requires Under(src, p) && p in f && !IsDir(f, p) && !Under(src, Rebase(p, src, dst))
    requires Alone(f.Keys, f, src, dst, p)
    ensures Kept(f, g, p, Rebase(p, src, dst))
  {
    var roots := f.Keys;
    var t :| Trace(roots, t, src, dst) && t[0] == f && t[|t| - 1] == g;
    KeptAlong(roots, f, t, |t| - 1, src, dst, p);
  }

  // ----- no file is lost

  /** `z` is `p`, its counterpart, or, as long as that lies in the source, a counterpart of
      that. */
  predicate Follows(src: Path, dst: Path, p: Path, z: Path)
    decreases |p|
  {
    z == p ||
    (Under(src, p) && (z == Rebase(p, src, dst) || (Over(src, dst) && Follows(src, dst, Rebase(p, src, dst), z))))
  }

  lemma {:induction false} FollowsNext(src: Path, dst: Path, p: Path, z: Path)
    requires !Under(src, dst) && Follows(src, dst, p, z) && Under(src, z)
    ensures Follows(src, dst, p, Rebase(z, src, dst))
    decreases |p|
  {
    ApartOrOver(src, dst);
    if z != p {
      if Apart(src, dst) {
        ApartAt(dst, src, z);
      } else {
        FollowsNext(src, dst, Rebase(p, src, dst), z);
      }
    }
  }

  /** What can come to stand at the counterpart of `z` is `z` or can come to stand there. */
  lemma {:induction false} LandsThrough(roots: set<Path>, src: Path, dst: Path, w: Path, z: Path)
    requires Under(src, z) && Lands(roots, src, dst, w, Rebase(z, src, dst)) && !Under(src, dst)
    ensures w == z || Lands(roots, src, dst, w, z)
    decreases |w|
  {
    var y := Rebase(w, src, dst);
    if y == Rebase(z, src, dst) {
      assert w == src + w[|src|..] && z == src + z[|src|..];
    } else {
      LandsThrough(roots, src, dst, y, z);
    }
  }

  /** The file or link is at `z`, and nothing else can come to stand there. */
  ghost predicate Safe(roots: set<Path>, g: FS, src: Path, dst: Path, z: Path, node: Node) {
    z in g && g[z] == node && !IsDir(g, z) && forall w :: w in g && w != z ==> !Lands(roots, src, dst, w, z)
  }

  lemma SafeStep(roots: set<Path>, g: FS, h: FS, src: Path, dst: Path, z: Path, node: Node) returns (y: Path)
    requires !Under(src, dst) && Safe(roots, g, src, dst, z, node) && OneStep(roots, g, h, src, dst)
    ensures Safe(roots, h, src, dst, y, node) && (y == z || (Under(src, z) && y == Rebase(z, src, dst)))
  {
    hide Root;
    var x :| x in g && Under(src, x) && Root(src, dst, x) in roots && StepAt(g, h, x, Rebase(x, src, dst));
    var q := Rebase(x, src, dst);
    LandsFirst(roots, src, dst, x);
    hide Lands;
    assert q == z ==> x == z;
    if Renames(g, h, x, q) {
      RenamedAt(g, x, q, z);
      y := if Under(x, z) then Rebase(z, x, q) else z;
      if Under(x, z) {
        RebaseOnto(z, x, src, dst);
        RenamedAt(g, x, q, y);
      }
      forall w | w in h && w != y ensures !Lands(roots, src, dst, w, y) {
        SafeFrom(roots, g, h, src, dst, x, z, y, w, node);
      }
    } else {
      y := z;
    }
  }

  lemma LandsFirst(roots: set<Path>, src: Path, dst: Path, x: Path)
    requires Under(src, x) && Root(src, dst, x) in roots
    ensures Lands(roots, src, dst, x, Rebase(x, src, dst))
  {
  }

  lemma SafeFrom(roots: set<Path>, g: FS, h: FS, src: Path, dst: Path, x: Path, z: Path, y: Path, w: Path, node: Node)
    requires !Under(src, dst) && Safe(roots, g, src, dst, z, node)
    requires x in g && Under(src, x) && Root(src, dst, x) in roots && Renames(g, h, x, Rebase(x, src, dst))
    requires if Under(x, z) then Under(src, z) && y == Rebase(z, src, dst) else y == z
    requires w in h && w != y
    ensures !Lands(roots, src, dst, w, y)
  {
    hide Root;
    var q := Rebase(x, src, dst);
    RenamedAt(g, x, q, w);
    if Lands(roots, src, dst, w, y) {
      if Under(x, z) {
        RenamedAt(g, x, q, z);
        LandsThrough(roots, src, dst, w, z);
      }
      assert Lands(roots, src, dst, w, z);
      if Under(q, w) {
        var o := Rebase(w, q, x);
        RebaseOnto(o, x, src, dst);
        RootDown(src, dst, x, o);
        LandsMore(roots, src, dst, o, z);
      }
    }
  }

  lemma LandsMore(roots: set<Path>, src: Path, dst: Path, o: Path, z: Path)
    requires !Under(src, dst) && Under(src, o) && Root(src, dst, o) in roots
    requires Lands(roots, src, dst, Rebase(o, src, dst), z)
    ensures Lands(roots, src, dst, o, z)
  {
    ApartOrOver(src, dst);
    if Apart(src, dst) { ApartAt(dst, src, Rebase(o, src, dst)); }
  }

  lemma {:induction false} SafeAlong(roots: set<Path>, t: seq<FS>, i: nat, src: Path, dst: Path, p: Path, node: Node)
    returns (z: Path)
    requires Trace(roots, t, src, dst) && i < |t| && !Under(src, dst) && Safe(roots, t[0], src, dst, p, node)
    ensures Safe(roots, t[i], src, dst, z, node) && Follows(src, dst, p, z)
  {
    hide OneStep, WellFormed, Safe;
    if i == 0 {
      z := p;
    } else {
      var y := SafeAlong(roots, t, i - 1, src, dst, p, node);
      assert OneStep(roots, t[i - 1], t[i - 1 + 1], src, dst);
      z := SafeStep(roots, t[i - 1], t[i], src, dst, y, node);
      if z != y { FollowsNext(src, dst, p, y); }
    }
  }

  /** Wherever a move goes, whatever the answers and failures: a file or link of the source in
      whose place nothing else can come to stand is not lost; it is where it was, at its
      counterpart, or further on. */
  lemma FileNotLost(f: FS, g: FS, src: Path, dst: Path, p: Path) returns (z: Path)
    requires !Under(src, dst) && Steps(f.Keys, f, g, src, dst)
    requires p in f && !IsDir(f, p) && Alone(f.Keys, f, src, dst, p)
    ensures Follows(src, dst, p, z) && z in g && g[z] == f[p]
  {
    var t :| Trace(f.Keys, t, src, dst) && t[0] == f && t[|t| - 1] == g;
    z := SafeAlong(f.Keys, t, |t| - 1, src, dst, p, f[p]);
  }

  /** And what lies outside the source is as it was, if nothing can come to stand there. */
  lemma {:induction false} OutsideAlong(roots: set<Path>, t: seq<FS>, i: nat, src: Path, dst: Path, q: Path)
    requires Trace(roots, t, src, dst) && i < |t| && !Under(src, dst) && !Under(src, q)
    requires Alone(roots, t[0], src, dst, q)
    ensures Same(t[0], t[i], q) && Alone(roots, t[i], src, dst, q)
  {
    hide Alone, OneStep, WellFormed;
    if i > 0 {
      OutsideAlong(roots, t, i - 1, src, dst, q);
      assert OneStep(roots, t[i - 1], t[i - 1 + 1], src, dst);
      OutsideStep(roots, t[i - 1], t[i], src, dst, q);
      AloneStep(roots, t[i - 1], t[i], src, dst, q);
    }
  }

  lemma OutsideStep(roots: set<Path>, g: FS, h: FS, src: Path, dst: Path, q: Path)
    requires !Under(src, q) && Alone(roots, g, src, dst, q) && OneStep(roots, g, h, src, dst)
    ensures Same(g, h, q)
  {
    var x :| x in g && Under(src, x) && Root(src, dst, x) in roots && StepAt(g, h, x, Rebase(x, src, dst));
    var y := Rebase(x, src, dst);
    assert !Lands(roots, src, dst, x, q);
    if Under(x, q) { UnderTrans(src, x, q); }
    if Renames(g, h, x, y) {
      RenamedAt(g, x, y, q);
      if Under(y, q) {
        var o := Rebase(q, y, x);
        RebaseOnto(o, x, src, dst);
        RootDown(src, dst, x, o);
        assert o in g ==> !Lands(roots, src, dst, o, q);
      }
    }
  }

  lemma OutsideKept(f: FS, g: FS, src: Path, dst: Path, q: Path)
    requires !Under(src, dst) && Steps(f.Keys, f, g, src, dst) && !Under(src, q) && Alone(f.Keys, f, src, dst, q)
    ensures Same(f, g, q)
  {
    var roots := f.Keys;
    var t :| Trace(roots, t, src, dst) && t[0] == f && t[|t| - 1] == g;
    OutsideAlong(roots, t, |t| - 1, src, dst, q);
  }

  // ----- where nodes come from

  /** At most one path has the node. */
  ghost predicate AtMostOnce(f: FS, node: Node) {
    forall p, q :: p in f && q in f && f[p] == f[q] == node ==> p == q
  }

  lemma NodesStep(roots: set<Path>, g: FS, h: FS, src: Path, dst: Path)
    requires OneStep(roots, g, h, src, dst)
    ensures h.Values <= g.Values && forall node :: AtMostOnce(g, node) ==> AtMostOnce(h, node)
  {
    var x :| x in g && Under(src, x) && Root(src, dst, x) in roots && StepAt(g, h, x, Rebase(x, src, dst));
    var y := Rebase(x, src, dst);
    if Renames(g, h, x, y) {
      forall q | q in h
        ensures var o := if Under(y, q) then Rebase(q, y, x) else q; o in g && h[q] == g[o]
      {
        RenamedAt(g, x, y, q);
      }
    }
  }

  lemma {:induction false} NodesAlong(roots: set<Path>, t: seq<FS>, i: nat, src: Path, dst: Path)
    requires Trace(roots, t, src, dst) && i < |t|
    ensures t[i].Values <= t[0].Values && forall node :: AtMostOnce(t[0], node) ==> AtMostOnce(t[i], node)
  {
    hide OneStep, AtMostOnce, WellFormed;
    if i > 0 {
      NodesAlong(roots, t, i - 1, src, dst);
      assert OneStep(roots, t[i - 1], t[i - 1 + 1], src, dst);
      NodesStep(roots, t[i - 1], t[i], src, dst);
    }
  }

  /** A move brings nothing into the world and doubles nothing. */
  lemma NothingNew(f: FS, g: FS, src: Path, dst: Path)
    requires SomeSteps(f, g, src, dst)
    ensures g.Values <= f.Values && forall node :: AtMostOnce(f, node) ==> AtMostOnce(g, node)
  {
    var roots :| Steps(roots, f, g, src, dst);
    var t :| Trace(roots, t, src, dst) && t[0] == f && t[|t| - 1] == g;
    NodesAlong(roots, t, |t| - 1, src, dst);
  }
}
