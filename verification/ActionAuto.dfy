/** What do_move2 and do_copy2 of action.c do when they are left to a policy and nothing fails
    unforeseen: whole runs as functions, for any source and destination.  `k` bounds the depth
    of the recursion; a run that needs more, or an order that is not one of the listing, gives
    None. */
module ActionAuto {
  import opened Basics
  import opened FileTree
  import opened ActionWorld
  import opened ActionConflict

  /** Nothing is done for the entry. */
  ghost predicate Skips(f: FS, src: Path, dst: Path, policy: Policy) {
    src !in f || (policy == SkipExisting && dst in f) || Blocked(f, src, dst, policy)
  }

  // ----- moving

  /** An entry that is moved as a whole, onto a place that is cleared first. */
  ghost function Shifted(f: FS, src: Path, dst: Path): FS {
    var f1 := f - {dst};
    if Apart(src, dst) && dst != [] && (forall p :: p in f1 ==> !Under(dst, p)) && IsDir(f1, Parent(dst))
    then Renamed(f1, src, dst) else f1
  }

  /** rmdir, if it can. */
  ghost function Emptied(f: FS, p: Path): FS {
    if IsDir(f, p) && Listing(f, p) == {} then f - {p} else f
  }

  ghost function Moving(c: Chance, f: FS, src: Path, dst: Path, policy: Policy, k: nat): Option<FS>
    decreases k, 2, 0
  {
    if Skips(f, src, dst, policy) then Some(f)
    else if IsDir(f, src) && IsDir(f, dst) then MovingInto(c, f, src, dst, policy, k)
    else Some(Shifted(f, src, dst))
  }

  ghost function MovingInto(c: Chance, f: FS, src: Path, dst: Path, policy: Policy, k: nat): Option<FS>
    decreases k, 1, 0
  {
    var names := c.order(src, Listing(f, src));
    if k == 0 || !Lists(names, Listing(f, src)) then None
    else match MovingAll(c, f, src, dst, policy, names, k - 1)
      case None => None
      case Some(g) => Some(Emptied(g, src))
  }

  ghost function MovingAll(c: Chance, f: FS, src: Path, dst: Path, policy: Policy, names: seq<Name>, k: nat): Option<FS>
    decreases k, 3, |names|
  {
    if names == [] then Some(f)
    else match Moving(c, f, Child(src, names[0]), Child(dst, names[0]), policy, k)
      case None => None
      case Some(g) => MovingAll(c, g, src, dst, policy, names[1..], k)
  }

  /** The state `g` has been reached on the way from `f` through `names`. */
  ghost predicate MovedSoFar(c: Chance, f: FS, g: FS, src: Path, dst: Path, policy: Policy, names: seq<Name>, i: nat)
    requires i <= |names|
  {
    forall k: nat :: MovingAll(c, f, src, dst, policy, names, k).Some? ==>
      MovingAll(c, f, src, dst, policy, names, k) == MovingAll(c, g, src, dst, policy, names[i..], k)
  }

  lemma MovedNextName(c: Chance, f: FS, g: FS, h: FS, src: Path, dst: Path, policy: Policy, names: seq<Name>, i: nat)
    requires i < |names| && MovedSoFar(c, f, g, src, dst, policy, names, i)
    requires forall k: nat :: Moving(c, g, Child(src, names[i]), Child(dst, names[i]), policy, k).Some? ==>
      h == Moving(c, g, Child(src, names[i]), Child(dst, names[i]), policy, k).value
    ensures MovedSoFar(c, f, h, src, dst, policy, names, i + 1)
  {
    hide Moving;
    assert names[i..][0] == names[i] && names[i..][1..] == names[i + 1..];
    forall k: nat | MovingAll(c, f, src, dst, policy, names, k).Some?
      ensures MovingAll(c, f, src, dst, policy, names, k) == MovingAll(c, h, src, dst, policy, names[i + 1..], k)
    {
      assert MovingAll(c, g, src, dst, policy, names[i..], k).Some?;
      assert Moving(c, g, Child(src, names[i]), Child(dst, names[i]), policy, k).Some?;
    }
  }

  lemma MovedStart(c: Chance, f: FS, src: Path, dst: Path, policy: Policy, names: seq<Name>)
    ensures MovedSoFar(c, f, f, src, dst, policy, names, 0)
  {
    assert names[0..] == names;
  }

  lemma MovedEnd(c: Chance, f: FS, g: FS, src: Path, dst: Path, policy: Policy, names: seq<Name>)
    ensures MovedSoFar(c, f, g, src, dst, policy, names, |names|) ==>
      forall k: nat :: MovingAll(c, f, src, dst, policy, names, k).Some? ==>
        MovingAll(c, f, src, dst, policy, names, k).value == g
  {
  }

  // ----- copying

  /** The entry itself, made anew on a place that is cleared first, and whether that worked. */
  ghost function Made(c: Chance, f: FS, src: Path, dst: Path): (FS, bool) {
    var f1 := f - {dst};
    if c.unwritable(dst) || dst == [] || !IsDir(f1, Parent(dst)) || src !in f1 then (f1, false)
    else (f1[dst := Copied(c, f1[src], dst)], true)
  }

  /** The time of a copied link is not kept. */
  function Copied(c: Chance, node: Node, dst: Path): Node {
    if node.kind.Link? then Node(node.kind, c.clock(dst)) else node
  }

  ghost function Copying(c: Chance, f: FS, src: Path, dst: Path, policy: Policy, k: nat): Option<FS>
    decreases k, 2, 0
  {
    if Skips(f, src, dst, policy) then Some(f)
    else if IsDir(f, src) && IsDir(f, dst) then CopyingInto(c, f, src, dst, policy, k)
    else
      var (g, made) := Made(c, f, src, dst);
      if made && IsDir(g, src) then CopyingInto(c, g, src, dst, policy, k) else Some(g)
  }

  ghost function CopyingInto(c: Chance, f: FS, src: Path, dst: Path, policy: Policy, k: nat): Option<FS>
    decreases k, 1, 0
  {
    var names := c.order(src, Listing(f, src));
    if k == 0 || !Lists(names, Listing(f, src)) then None
    else CopyingAll(c, f, src, dst, policy, names, k - 1)
  }

  ghost function CopyingAll(c: Chance, f: FS, src: Path, dst: Path, policy: Policy, names: seq<Name>, k: nat)
    : Option<FS>
    decreases k, 3, |names|
  {
    if names == [] then Some(f)
    else match Copying(c, f, Child(src, names[0]), Child(dst, names[0]), policy, k)
      case None => None
      case Some(g) => CopyingAll(c, g, src, dst, policy, names[1..], k)
  }

  /** The state `g` has been reached on the way from `f` through `names`. */
  ghost predicate CopiedSoFar(c: Chance, f: FS, g: FS, src: Path, dst: Path, policy: Policy, names: seq<Name>, i: nat)
    requires i <= |names|
  {
    forall k: nat :: CopyingAll(c, f, src, dst, policy, names, k).Some? ==>
      CopyingAll(c, f, src, dst, policy, names, k) == CopyingAll(c, g, src, dst, policy, names[i..], k)
  }

  lemma CopiedNextName(c: Chance, f: FS, g: FS, h: FS, src: Path, dst: Path, policy: Policy, names: seq<Name>, i: nat)
    requires i < |names| && CopiedSoFar(c, f, g, src, dst, policy, names, i)
    requires forall k: nat :: Copying(c, g, Child(src, names[i]), Child(dst, names[i]), policy, k).Some? ==>
      h == Copying(c, g, Child(src, names[i]), Child(dst, names[i]), policy, k).value
    ensures CopiedSoFar(c, f, h, src, dst, policy, names, i + 1)
  {
    hide Copying;
    assert names[i..][0] == names[i] && names[i..][1..] == names[i + 1..];
    forall k: nat | CopyingAll(c, f, src, dst, policy, names, k).Some?
      ensures CopyingAll(c, f, src, dst, policy, names, k) == CopyingAll(c, h, src, dst, policy, names[i + 1..], k)
    {
      assert CopyingAll(c, g, src, dst, policy, names[i..], k).Some?;
      assert Copying(c, g, Child(src, names[i]), Child(dst, names[i]), policy, k).Some?;
    }
  }

  lemma CopiedStart(c: Chance, f: FS, src: Path, dst: Path, policy: Policy, names: seq<Name>)
    ensures CopiedSoFar(c, f, f, src, dst, policy, names, 0)
  {
    assert names[0..] == names;
  }

  lemma CopiedEnd(c: Chance, f: FS, g: FS, src: Path, dst: Path, policy: Policy, names: seq<Name>)
    ensures CopiedSoFar(c, f, g, src, dst, policy, names, |names|) ==>
      forall k: nat :: CopyingAll(c, f, src, dst, policy, names, k).Some? ==>
        CopyingAll(c, f, src, dst, policy, names, k).value == g
  {
  }
}
