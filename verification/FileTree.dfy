/** File systems as maps from paths to nodes, and the system calls action.c makes on them. */
module FileTree {
  import opened Basics

  type Name = string

  /** A path is the sequence of names below the root. */
  type Path = seq<Name>

  datatype Kind = Directory | File(data: int) | Link(target: string)

  datatype Node = Node(kind: Kind, mtime: int)

  type FS = map<Path, Node>

  predicate IsDir(f: FS, p: Path) {
    p in f && f[p].kind.Directory?
  }

  /** `p` is `root` or lies below it. */
  predicate Under(root: Path, p: Path) {
    root <= p
  }

  /** The path that stands to `to` as `p` stands to `from`. */
  function Rebase(p: Path, from: Path, to: Path): (r: Path)
    requires Under(from, p)
    ensures Under(to, r) && from + r[|to|..] == p
  {
    to + p[|from|..]
  }

  /** Neither path is the other or lies below it. */
  predicate Apart(a: Path, b: Path) {
    !Under(a, b) && !Under(b, a)
  }

  /** `dst` contains `src` and is not the same. */
  predicate Over(src: Path, dst: Path) {
    dst < src
  }

  /** The path whose counterpart is `src` itself, when `dst` contains `src`. */
  function Again(src: Path, dst: Path): (r: Path)
    requires Under(dst, src)
    ensures Under(src, r) && Rebase(r, src, dst) == src
  {
    src + src[|dst|..]
  }

  /** Every node but the root lies in a directory. */
  ghost predicate WellFormed(f: FS) {
    && IsDir(f, [])
    && forall p :: p in f && p != [] ==> IsDir(f, Parent(p))
  }

  function Parent(p: Path): Path
    requires p != []
  {
    p[..|p| - 1]
  }

  function Leaf(p: Path): Name
    requires p != []
  {
    p[|p| - 1]
  }

  function Child(dir: Path, n: Name): Path {
    dir + [n]
  }

  /** The names readdir gives. */
  function Listing(f: FS, dir: Path): set<Name> {
    set p | p in f && p != [] && Parent(p) == dir :: Leaf(p)
  }

  function Subtree(f: FS, root: Path): set<Path> {
    set p | p in f && Under(root, p)
  }

  ghost predicate Same(f: FS, g: FS, p: Path) {
    (p in f <==> p in g) && (p in f ==> f[p] == g[p])
  }

  // ----- facts about paths

  lemma UnderTrans(a: Path, b: Path, c: Path)
    requires Under(a, b) && Under(b, c)
    ensures Under(a, c)
  {
  }

  lemma ApartAt(a: Path, b: Path, p: Path)
    requires Apart(a, b) && Under(a, p)
    ensures !Under(b, p)
  {
  }

  lemma ApartChildren(a: Path, b: Path, n: Name)
    requires Apart(a, b)
    ensures Apart(Child(a, n), Child(b, n)) && Leaf(Child(a, n)) == n
  {
    ApartAt(a, b, Child(a, n));
    ApartAt(b, a, Child(b, n));
  }

  /** A destination that is neither the source nor inside it is apart from it or contains it. */
  lemma ApartOrOver(src: Path, dst: Path)
    ensures !Under(src, dst) <==> Apart(src, dst) || Over(src, dst)
  {
  }

  /** So are the children: one of them at most goes on being over. */
  lemma OverChildren(src: Path, dst: Path, n: Name)
    requires Over(src, dst)
    ensures var c, d := Child(src, n), Child(dst, n);
      if n == src[|dst|] then Over(c, d) && Again(c, d) == Child(Again(src, dst), n) else Apart(c, d)
  {
    var c, d := Child(src, n), Child(dst, n);
    if n == src[|dst|] {
      assert c[..|d|] == d;
      assert c + c[|d|..] == src + [n] + (src[|dst| + 1..] + [n]);
      assert src[|dst|..] == [n] + src[|dst| + 1..];
    } else {
      assert c[|dst|] != d[|dst|];
    }
  }

  /** A counterpart is in the source exactly for what is at or below the path of that name. */
  lemma OverCounterpart(src: Path, dst: Path, p: Path)
    requires Over(src, dst) && Under(src, p)
    ensures var q := Rebase(p, src, dst);
      && (Under(src, q) <==> Under(Again(src, dst), p))
      && (q == src <==> p == Again(src, dst))
  {
    var q, s := Rebase(p, src, dst), src[|dst|..];
    assert src == dst + s && q == dst + p[|src|..];
    if Under(src, q) {
      assert q[|dst|..][..|s|] == s;
      assert p == src + s + p[|src| + |s|..];
    }
    if Under(Again(src, dst), p) {
      assert p[|src|..][..|s|] == s;
      assert q[..|src|] == src;
    }
  }

  // ----- sets of paths

  ghost predicate AllUnder(root: Path, xs: set<Path>) {
    forall x :: x in xs ==> Under(root, x)
  }

  /** Everything in `xs` belongs to one of the children in `names`. */
  ghost predicate Within(dir: Path, names: set<Name>, xs: set<Path>) {
    forall x :: x in xs ==> Under(dir, x) && x != dir && x[|dir|] in names
  }

  lemma WithinChild(dir: Path, n: Name, xs: set<Path>)
    requires AllUnder(Child(dir, n), xs)
    ensures Within(dir, {n}, xs)
  {
  }

  // ----- the depth of a tree

  ghost function Longest(ps: set<Path>): (d: nat)
    ensures forall p :: p in ps ==> |p| <= d
    ensures d == 0 || exists p :: p in ps && |p| == d
  {
    if ps == {} then 0
    else
      var p :| p in ps;
      var d := Longest(ps - {p});
      assert forall q :: q in ps ==> q == p || q in ps - {p};
      if |p| > d then |p| else d
  }

  ghost function Depth(f: FS): nat {
    Longest(f.Keys)
  }

  /** How much further down than `p` the tree goes. */
  ghost function Below(f: FS, p: Path): nat {
    if Depth(f) > |p| then Depth(f) - |p| else 0
  }

  lemma DepthLeast(f: FS, d: nat)
    requires forall p :: p in f ==> |p| <= d
    ensures Depth(f) <= d
  {
  }

  lemma RebaseUnder(src: Path, dst: Path, n: Name, p: Path)
    requires Under(src, p)
    ensures Under(Child(dst, n), Rebase(p, src, dst)) <==> Under(Child(src, n), p)
    ensures Under(Child(src, n), p) ==> Rebase(p, Child(src, n), Child(dst, n)) == Rebase(p, src, dst)
  {
  }

  lemma SiblingAt(dir: Path, m: Name, n: Name, p: Path)
    requires m != n && Under(Child(dir, m), p)
    ensures !Under(Child(dir, n), p)
  {
    assert p[|dir|] == m;
  }

  lemma UnderChild(dir: Path, p: Path)
    requires Under(dir, p) && p != dir
    ensures Under(Child(dir, p[|dir|]), p)
  {
  }

  /** Whatever lies below a path that exists is below directories. */
  lemma {:induction false} Ancestors(f: FS, q: Path, p: Path)
    requires WellFormed(f) && p in f && Under(q, p)
    ensures q in f && (q != p ==> IsDir(f, q))
    decreases |p|
  {
    if p != q {
      assert Under(q, Parent(p));
      Ancestors(f, q, Parent(p));
    }
  }

  lemma ListingComplete(f: FS, dir: Path, p: Path)
    requires WellFormed(f) && p in f && Under(dir, p) && p != dir
    ensures p[|dir|] in Listing(f, dir)
  {
    var c := Child(dir, p[|dir|]);
    UnderChild(dir, p);
    Ancestors(f, c, p);
    assert Parent(c) == dir && Leaf(c) == p[|dir|];
  }

  lemma ListingSound(f: FS, dir: Path, n: Name)
    requires n in Listing(f, dir)
    ensures Child(dir, n) in f
  {
    var p :| p in f && p != [] && Parent(p) == dir && Leaf(p) == n;
    assert p == Child(dir, n);
  }

  lemma ListingSame(f: FS, g: FS, root: Path, d: Path)
    requires (forall p :: Under(root, p) ==> Same(f, g, p)) && Under(root, d)
    ensures Listing(f, d) == Listing(g, d)
  {
    forall n
      ensures n in Listing(f, d) <==> n in Listing(g, d)
    {
      var c := Child(d, n);
      assert Under(root, c) && c != [] && Parent(c) == d && Leaf(c) == n;
      if n in Listing(f, d) { ListingSound(f, d, n); }
      if n in Listing(g, d) { ListingSound(g, d, n); }
    }
  }

  /** The subtree of a child is smaller, which is why the recursion ends. */
  lemma SmallerSubtree(f: FS, g: FS, src: Path, n: Name)
    requires src in f && forall p :: Under(Child(src, n), p) ==> Same(f, g, p)
    ensures |Subtree(g, Child(src, n))| < |Subtree(f, src)|
  {
    var a, b := Subtree(g, Child(src, n)), Subtree(f, src);
    assert a <= b && src in b && src !in a;
    assert a < b;
    SubsetSize(a, b);
  }

  // ----- rename

  /** What rename(2) does to a tree when nothing exists at the target. */
  function Renamed(f: FS, src: Path, dst: Path): FS
    requires Apart(src, dst) && forall p :: p in f ==> !Under(dst, p)
  {
    map q | q in (set p | p in f && !Under(src, p)) + (set p | p in f && Under(src, p) :: Rebase(p, src, dst))
      :: if Under(dst, q) then f[Rebase(q, dst, src)] else f[q]
  }

  lemma RenamedAt(f: FS, src: Path, dst: Path, q: Path)
    requires Apart(src, dst) && forall p :: p in f ==> !Under(dst, p)
    ensures var g := Renamed(f, src, dst);
      if Under(dst, q) then
        var p := Rebase(q, dst, src);
        (q in g <==> p in f) && (q in g ==> g[q] == f[p])
      else if Under(src, q) then q !in g
      else Same(f, g, q)
  {
  }

  lemma RenamedWellFormed(f: FS, src: Path, dst: Path)
    requires WellFormed(f) && Apart(src, dst) && (forall p :: p in f ==> !Under(dst, p))
    requires IsDir(f, Parent(dst))
    ensures WellFormed(Renamed(f, src, dst))
  {
    hide Renamed;
    RenamedAt(f, src, dst, []);
    forall q | q in Renamed(f, src, dst) && q != []
      ensures IsDir(Renamed(f, src, dst), Parent(q))
    {
      RenamedParent(f, src, dst, q);
    }
  }

  lemma RenamedParent(f: FS, src: Path, dst: Path, q: Path)
    requires WellFormed(f) && Apart(src, dst) && (forall p :: p in f ==> !Under(dst, p))
    requires IsDir(f, Parent(dst)) && q in Renamed(f, src, dst) && q != []
    ensures IsDir(Renamed(f, src, dst), Parent(q))
  {
    hide Renamed;
    RenamedAt(f, src, dst, q);
    RenamedAt(f, src, dst, Parent(q));
    if q != dst && Under(dst, q) {
      assert Rebase(Parent(q), dst, src) == Parent(Rebase(q, dst, src));
    }
  }
}
