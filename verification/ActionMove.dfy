/** do_move2 of action.c: moving a tree onto or into another, entry by entry, with whatever
    answers and failures come up. */
module ActionMove {
  import opened Basics
  import opened FileTree
  import opened ActionWorld
  import opened ActionConsent
  import opened ActionConflict
  import opened ActionAuto
  import opened ActionSteps

  /** What a move may have done to the entry `p` and its counterpart `q` at the destination,
      between file systems `f` and `g`:
      an entry that is not there names nothing, so its counterpart is untouched;
      a file or link is at exactly one of the two places, unchanged, and while it is still at
      its source its counterpart is either untouched or already removed to make room;
      a directory that has left its source is a directory at the destination.
      A directory with something in it does not give way to a file or link.
      Under "skip existing" an existing counterpart is untouched; under "newer" so is that
      of a file or link that is not newer, which then stays where it is. */
  ghost predicate PairOk(f: FS, g: FS, p: Path, q: Path, policy: Policy) {
    && (p !in f ==> p !in g && Same(f, g, q))
    && (p in f && p in g ==> g[p] == f[p] && (q !in g || Same(f, g, q)))
    && (p in f && p !in g ==> q in g && g[q] == if IsDir(f, p) && IsDir(f, q) then f[q] else f[p])
    && (IsDir(f, p) && IsDir(f, q) ==> Same(f, g, q))
    && (Full(f, p, q) ==> Same(f, g, p) && Same(f, g, q))
    && (policy == SkipExisting && q in f ==> Same(f, g, q))
    && ((policy == UpdateNewer && p in f && !IsDir(f, p) && q in f && f[p].mtime <= f[q].mtime)
        ==> Same(f, g, q) && p in g)
  }

  /** A move of `src` to `dst`, finished or cut short.  When `dst` contains `src`, a name that
      is missing from the source can have its counterpart in the source; that is moved as an
      entry of its own. */
  ghost predicate Moved(f: FS, g: FS, src: Path, dst: Path, policy: Policy) {
    && (forall p :: !Under(src, p) && !Under(dst, p) ==> Same(f, g, p))
    && (forall p :: Under(src, p) && p !in f ==> p !in g)
    && (forall p :: Under(src, p) && (p in f || !Under(src, Rebase(p, src, dst))) ==>
          PairOk(f, g, p, Rebase(p, src, dst), policy))
  }

  /** When a move is safe: source and destination are apart, or the destination contains the
      source and no directory of the source has the source itself for its counterpart. */
  ghost predicate MoveSafe(f: FS, src: Path, dst: Path) {
    Apart(src, dst) || (Over(src, dst) && !IsDir(f, Again(src, dst)))
  }

  /** The part of both trees that belongs to one entry has not been touched, the rest of the
      source `top` apart. */
  ghost predicate Untouched(f: FS, g: FS, src: Path, dst: Path, top: Path) {
    && (forall p :: Under(src, p) ==> Same(f, g, p))
    && (forall q :: Under(dst, q) && !Under(top, q) ==> Same(f, g, q))
  }

  // ----- a destination that contains the source

  /** Only the source itself can be the counterpart of an entry and in the source; it does not
      give way to that. */
  lemma InSource(f: FS, src: Path, dst: Path, p: Path)
    requires WellFormed(f) && MoveSafe(f, src, dst) && p in f && Under(src, p)
    ensures var q := Rebase(p, src, dst); Under(src, q) ==> q == src && Full(f, p, q)
  {
    var q := Rebase(p, src, dst);
    if Under(src, q) {
      if Apart(src, dst) { ApartAt(src, dst, q); }
      OverCounterpart(src, dst, p);
      Ancestors(f, Again(src, dst), p);
      Ancestors(f, src, p);
      ListingComplete(f, src, p);
    }
  }

  lemma SafeChild(f: FS, g: FS, src: Path, dst: Path, n: Name)
    requires WellFormed(f) && MoveSafe(f, src, dst)
    requires forall p :: Under(src, p) && p !in f ==> p !in g
    ensures MoveSafe(g, Child(src, n), Child(dst, n))
  {
    if Apart(src, dst) {
      ApartChildren(src, dst, n);
    } else {
      OverChildren(src, dst, n);
      if n == src[|dst|] {
        var a := Again(src, dst);
        assert Under(src, Child(a, n)) && Parent(Child(a, n)) == a;
      }
    }
  }

  /** Moving a child leaves the other entries of the source as they are. */
  lemma KeptSource(f: FS, g: FS, h: FS, src: Path, dst: Path, n: Name, now: Policy, p: Path)
    requires WellFormed(f) && WellFormed(g) && MoveSafe(f, src, dst) && Same(f, g, src)
    requires Untouched(f, g, Child(src, n), Child(dst, n), src)
    requires Moved(g, h, Child(src, n), Child(dst, n), now)
    requires Under(src, p) && !Under(Child(src, n), p)
    ensures Same(g, h, p)
  {
    var c, d := Child(src, n), Child(dst, n);
    if Under(d, p) {
      var o := Rebase(p, d, c);
      UnderTrans(src, c, o);
      UnderTrans(dst, d, p);
      RebaseUnder(src, dst, n, o);
      assert Rebase(o, c, d) == p;
      assert PairOk(g, h, o, p, now);
      if o in g {
        InSource(f, src, dst, o);
        ListingComplete(g, src, o);
      }
    }
  }

  /** A directory at the destination has something in it as long as it had. */
  lemma SameFull(f: FS, g: FS, dst: Path, top: Path, q: Path)
    requires forall x :: Under(dst, x) && !Under(top, x) ==> Same(f, g, x)
    requires Same(f, g, top) && Under(dst, q) && !Under(top, q)
    ensures Listing(f, q) == Listing(g, q)
  {
    forall m ensures m in Listing(f, q) <==> m in Listing(g, q) {
      var x := Child(q, m);
      assert x != [] && Parent(x) == q && Leaf(x) == m;
      UnderTrans(dst, q, x);
      if Under(top, x) { assert x == top; }
      if m in Listing(f, q) { ListingSound(f, q, m); }
      if m in Listing(g, q) { ListingSound(g, q, m); }
    }
  }

  /** A pair of the child's, as a pair of the directory's. */
  lemma ChildPair(f: FS, g: FS, src: Path, dst: Path, n: Name, p: Path)
    requires WellFormed(f) && WellFormed(g) && MoveSafe(f, src, dst) && Same(f, g, src)
    requires Untouched(f, g, Child(src, n), Child(dst, n), src) && Under(Child(src, n), p)
    ensures var q := Rebase(p, src, dst);
      && q == Rebase(p, Child(src, n), Child(dst, n)) && Under(src, p) && Same(f, g, p)
      && (p in f || !Under(src, q) ==>
            Same(f, g, q) && (Full(f, p, q) <==> Full(g, p, q)) && (p in g || !Under(Child(src, n), q)))
  {
    var c, d, q := Child(src, n), Child(dst, n), Rebase(p, src, dst);
    UnderTrans(src, c, p);
    RebaseUnder(src, dst, n, p);
    if Under(src, q) {
      if p in f {
        InSource(f, src, dst, p);
        ListingComplete(g, src, p);
      }
    } else {
      if Under(c, q) { UnderTrans(src, c, q); }
      SameFull(f, g, d, src, q);
    }
  }

  // ----- composing a move from the moves of the children

  /** A directory that is being merged into stays a directory. */
  lemma MergedDir(f: FS, g: FS, src: Path, dst: Path, policy: Policy)
    requires Moved(f, g, src, dst, policy) && IsDir(f, src) && IsDir(f, dst)
    ensures IsDir(g, dst)
  {
    assert Rebase(src, src, dst) == dst;
    assert PairOk(f, g, src, dst, policy);
  }

  lemma MovedNothing(f: FS, src: Path, dst: Path, policy: Policy)
    ensures Moved(f, f, src, dst, policy)
    ensures forall n :: Untouched(f, f, Child(src, n), Child(dst, n), src)
  {
  }

  /** What holds whatever the policy. */
  lemma MovedAsking(f: FS, g: FS, src: Path, dst: Path, policy: Policy)
    requires Moved(f, g, src, dst, policy)
    ensures Moved(f, g, src, dst, Ask)
  {
  }

  /** Moving one more child extends the move of the whole directory. */
  lemma MovedChild(f: FS, g: FS, h: FS, src: Path, dst: Path, n: Name, policy: Policy, now: Policy)
    requires WellFormed(f) && WellFormed(g) && MoveSafe(f, src, dst) && Same(f, g, src)
    requires Moved(f, g, src, dst, policy) && Untouched(f, g, Child(src, n), Child(dst, n), src)
    requires Moved(g, h, Child(src, n), Child(dst, n), now)
    requires policy == Ask || policy == now
    ensures Moved(f, h, src, dst, policy) && Same(g, h, src)
  {
    hide Untouched, MoveSafe, WellFormed;
    KeptSource(f, g, h, src, dst, n, now, src);
    forall p | !Under(src, p) && !Under(dst, p)
      ensures Same(f, h, p)
    {
      OutsideChildren(src, dst, n, p);
    }
    forall p | Under(src, p)
      ensures p !in f ==> p !in h
      ensures p in f || !Under(src, Rebase(p, src, dst)) ==> PairOk(f, h, p, Rebase(p, src, dst), policy)
    {
      if Under(Child(src, n), p) {
        MovedInChild(f, g, h, src, dst, n, policy, now, p);
      } else {
        MovedElsewhere(f, g, h, src, dst, n, policy, now, p);
      }
    }
  }

  lemma OutsideChildren(src: Path, dst: Path, n: Name, p: Path)
    requires !Under(src, p) && !Under(dst, p)
    ensures !Under(Child(src, n), p) && !Under(Child(dst, n), p)
  {
    if Under(Child(src, n), p) { UnderTrans(src, Child(src, n), p); }
    if Under(Child(dst, n), p) { UnderTrans(dst, Child(dst, n), p); }
  }

  lemma MovedInChild(f: FS, g: FS, h: FS, src: Path, dst: Path, n: Name, policy: Policy, now: Policy, p: Path)
    requires WellFormed(f) && WellFormed(g) && MoveSafe(f, src, dst) && Same(f, g, src)
    requires Untouched(f, g, Child(src, n), Child(dst, n), src)
    requires Moved(g, h, Child(src, n), Child(dst, n), now)
    requires (policy == Ask || policy == now) && Under(Child(src, n), p)
    ensures Under(src, p) && (p !in f ==> p !in h)
    ensures p in f || !Under(src, Rebase(p, src, dst)) ==> PairOk(f, h, p, Rebase(p, src, dst), policy)
  {
    ChildPair(f, g, src, dst, n, p);
    hide Untouched, MoveSafe, WellFormed, Full;
  }

  lemma MovedElsewhere(f: FS, g: FS, h: FS, src: Path, dst: Path, n: Name, policy: Policy, now: Policy, p: Path)
    requires WellFormed(f) && WellFormed(g) && MoveSafe(f, src, dst) && Same(f, g, src)
    requires Moved(f, g, src, dst, policy) && Untouched(f, g, Child(src, n), Child(dst, n), src)
    requires Moved(g, h, Child(src, n), Child(dst, n), now)
    requires Under(src, p) && !Under(Child(src, n), p)
    ensures p !in f ==> p !in h
    ensures p in f || !Under(src, Rebase(p, src, dst)) ==> PairOk(f, h, p, Rebase(p, src, dst), policy)
  {
    var q := Rebase(p, src, dst);
    KeptSource(f, g, h, src, dst, n, now, p);
    if p in f || !Under(src, q) {
      RebaseUnder(src, dst, n, p);
      if Under(src, q) {
        InSource(f, src, dst, p);
        KeptSource(f, g, h, src, dst, n, now, src);
      } else {
        if Under(Child(src, n), q) { UnderTrans(src, Child(src, n), q); }
        assert Same(g, h, q);
      }
      hide Untouched, MoveSafe, WellFormed, Full;
      assert PairOk(f, g, p, q, policy);
    }
  }

  /** What is waiting for its turn stays untouched while a sibling is moved. */
  lemma UntouchedSibling(f: FS, g: FS, h: FS, src: Path, dst: Path, m: Name, n: Name, now: Policy)
    requires WellFormed(f) && WellFormed(g) && MoveSafe(f, src, dst) && Same(f, g, src) && m != n
    requires Untouched(f, g, Child(src, m), Child(dst, m), src) && Untouched(f, g, Child(src, n), Child(dst, n), src)
    requires Moved(g, h, Child(src, n), Child(dst, n), now)
    ensures Untouched(f, h, Child(src, m), Child(dst, m), src)
  {
    forall p | Under(Child(src, m), p)
      ensures Same(f, h, p)
    {
      UnderTrans(src, Child(src, m), p);
      SiblingAt(src, m, n, p);
      KeptSource(f, g, h, src, dst, n, now, p);
    }
    forall q | Under(Child(dst, m), q) && !Under(src, q)
      ensures Same(f, h, q)
    {
      SiblingAt(dst, m, n, q);
      if Under(Child(src, n), q) { UnderTrans(src, Child(src, n), q); }
    }
  }

  lemma UntouchedSiblings(f: FS, g: FS, h: FS, src: Path, dst: Path, ms: set<Name>, n: Name, now: Policy)
    requires WellFormed(f) && WellFormed(g) && MoveSafe(f, src, dst) && Same(f, g, src) && n !in ms
    requires Untouched(f, g, Child(src, n), Child(dst, n), src)
    requires forall m :: m in ms ==> Untouched(f, g, Child(src, m), Child(dst, m), src)
    requires Moved(g, h, Child(src, n), Child(dst, n), now)
    ensures forall m :: m in ms ==> Untouched(f, h, Child(src, m), Child(dst, m), src)
  {
    forall m | m in ms ensures Untouched(f, h, Child(src, m), Child(dst, m), src) {
      UntouchedSibling(f, g, h, src, dst, m, n, now);
    }
  }

  /** Removing the emptied source directory after a merge. */
  lemma MovedEmptied(f: FS, g: FS, src: Path, dst: Path, policy: Policy)
    requires WellFormed(f) && WellFormed(g) && MoveSafe(f, src, dst) && Moved(f, g, src, dst, policy)
    requires IsDir(f, src) && IsDir(f, dst) && Listing(g, src) == {}
    ensures Moved(f, g - {src}, src, dst, policy)
  {
    assert Rebase(src, src, dst) == dst;
    assert PairOk(f, g, src, dst, policy);
    forall p | Under(src, p) && (p in f || !Under(src, Rebase(p, src, dst)))
      ensures PairOk(f, g - {src}, p, Rebase(p, src, dst), policy)
    {
      var q := Rebase(p, src, dst);
      assert PairOk(f, g, p, q, policy);
      if p != src && q == src {
        InSource(f, src, dst, p);
        ListingComplete(g, src, p);
      }
    }
  }

  /** Making room at the destination, with or without the rename that should follow. */
  lemma MovedWhole(f: FS, f1: FS, src: Path, dst: Path, policy: Policy)
    requires WellFormed(f) && WellFormed(f1) && Apart(src, dst) && src in f
    requires forall p :: p in f1 ==> !Under(dst, p)
    requires Cleared(f, f1, src, dst, policy)
    ensures Moved(f, f1, src, dst, policy)
    ensures Moved(f, Renamed(f1, src, dst), src, dst, policy)
  {
    var g := Renamed(f1, src, dst);
    ClearedNotFull(f, f1, src, dst, policy);
    assert Rebase(src, src, dst) == dst;
    forall p | !Under(src, p) && !Under(dst, p)
      ensures Same(f, f1, p) && Same(f, g, p)
    {
      RenamedAt(f1, src, dst, p);
    }
    forall p | Under(src, p)
      ensures PairOk(f, f1, p, Rebase(p, src, dst), policy)
      ensures PairOk(f, g, p, Rebase(p, src, dst), policy)
    {
      var q := Rebase(p, src, dst);
      RenamedAt(f1, src, dst, p);
      RenamedAt(f1, src, dst, q);
      assert !Under(dst, p);
      assert q in f ==> q == dst && p == src by { assert q in f && q != dst ==> q in f1; }
    }
  }

  // ----- refusals

  /** Whatever the user refused to move is still there, and so is what it would have replaced
      (the rest of the source apart). */
  ghost predicate Obeyed(f: FS, g: FS, src: Path, dst: Path, no: set<Path>) {
    forall x :: x in no ==> x in f && Under(src, x) && Untouched(f, g, x, Rebase(x, src, dst), src)
  }

  lemma ObeyedChild(f: FS, g: FS, h: FS, src: Path, dst: Path, done: set<Name>, n: Name,
                    no: set<Path>, more: set<Path>, now: Policy)
    requires WellFormed(f) && WellFormed(g) && MoveSafe(f, src, dst) && Same(f, g, src)
    requires Obeyed(f, g, src, dst, no) && Within(src, done, no) && n !in done
    requires Untouched(f, g, Child(src, n), Child(dst, n), src)
    requires Moved(g, h, Child(src, n), Child(dst, n), now) && Obeyed(g, h, Child(src, n), Child(dst, n), more)
    ensures Obeyed(f, h, src, dst, no + more) && Within(src, done + {n}, no + more)
  {
    hide MoveSafe, WellFormed, Moved, Untouched;
    forall x | x in no + more
      ensures x in f && Under(src, x) && x != src && x[|src|] in done + {n}
      ensures Untouched(f, h, x, Rebase(x, src, dst), src)
    {
      if x in no {
        ObeyedBefore(f, g, h, src, dst, x, n, now);
      } else {
        UnderTrans(src, Child(src, n), x);
        assert x[|src|] == n;
        RebaseUnder(src, dst, n, x);
        UntouchedTrans(f, g, h, src, dst, n, x);
      }
    }
  }

  lemma UntouchedTrans(f: FS, g: FS, h: FS, src: Path, dst: Path, n: Name, x: Path)
    requires Untouched(f, g, Child(src, n), Child(dst, n), src) && Under(Child(src, n), x)
    requires Untouched(g, h, x, Rebase(x, Child(src, n), Child(dst, n)), Child(src, n))
    ensures Untouched(f, h, x, Rebase(x, Child(src, n), Child(dst, n)), src)
    ensures x in g ==> x in f
  {
    var c, d := Child(src, n), Child(dst, n);
    forall p | Under(x, p) ensures Same(f, h, p) {
      UnderTrans(c, x, p);
    }
    forall q | Under(Rebase(x, c, d), q) && !Under(src, q) ensures Same(f, h, q) {
      UnderTrans(d, Rebase(x, c, d), q);
      if Under(c, q) { UnderTrans(src, c, q); }
    }
  }

  lemma ObeyedBefore(f: FS, g: FS, h: FS, src: Path, dst: Path, x: Path, n: Name, now: Policy)
    requires WellFormed(f) && WellFormed(g) && MoveSafe(f, src, dst) && Same(f, g, src)
    requires Untouched(f, g, Child(src, n), Child(dst, n), src)
    requires Under(src, x) && x != src && x[|src|] != n
    requires Untouched(f, g, x, Rebase(x, src, dst), src) && Moved(g, h, Child(src, n), Child(dst, n), now)
    ensures Untouched(f, h, x, Rebase(x, src, dst), src)
  {
    var m, y := x[|src|], Rebase(x, src, dst);
    UnderChild(src, x);
    RebaseUnder(src, dst, m, x);
    forall p | Under(x, p) ensures Same(f, h, p) {
      UnderTrans(Child(src, m), x, p);
      UnderTrans(src, x, p);
      SiblingAt(src, m, n, p);
      KeptSource(f, g, h, src, dst, n, now, p);
    }
    forall q | Under(y, q) && !Under(src, q) ensures Same(f, h, q) {
      UnderTrans(Child(dst, m), y, q);
      SiblingAt(dst, m, n, q);
      if Under(Child(src, n), q) { UnderTrans(src, Child(src, n), q); }
    }
  }

  lemma ObeyedNothing(f: FS, src: Path, dst: Path)
    ensures forall no :: no <= {src} && (no == {} || src in f) ==> Obeyed(f, f, src, dst, no)
  {
  }

  lemma ObeyedNone(f: FS, src: Path, dst: Path)
    ensures forall g :: Obeyed(f, g, src, dst, {})
    ensures forall done :: Within(src, done, {})
  {
  }

  lemma WithinMore(src: Path, done: set<Name>, all: set<Name>, no: set<Path>)
    requires Within(src, done, no) && done <= all
    ensures Within(src, all, no)
  {
  }

  lemma ObeyedEmptied(f: FS, g: FS, src: Path, dst: Path, done: set<Name>, no: set<Path>)
    requires Obeyed(f, g, src, dst, no) && Within(src, done, no)
    ensures Obeyed(f, g - {src}, src, dst, no)
  {
  }

  // ----- what a move leaves behind when nothing fails

  /** Something keeps `x` where it is: a refusal, or what stands at the destination. */
  ghost predicate HeldAt(f: FS, src: Path, dst: Path, policy: Policy, no: set<Path>, x: Path) {
    Under(src, x) && (x in no || Blocked(f, x, Rebase(x, src, dst), policy))
  }

  /** `p` itself, something above it or something below it is held. */
  ghost predicate Stays(f: FS, src: Path, dst: Path, policy: Policy, no: set<Path>, p: Path) {
    exists x :: HeldAt(f, src, dst, policy, no, x) && (Under(p, x) || Under(x, p))
  }

  /** An entry is still at its source exactly when it stays in this sense. */
  ghost predicate Complete(f: FS, g: FS, src: Path, dst: Path, policy: Policy, no: set<Path>) {
    forall p :: p in f && Under(src, p) ==> (p in g <==> Stays(f, src, dst, policy, no, p))
  }

  /** What holds an entry of one child is inside that child. */
  lemma HeldInChild(f: FS, src: Path, dst: Path, n: Name, policy: Policy, done: set<Name>,
                    no: set<Path>, more: set<Path>, p: Path, x: Path)
    requires IsDir(f, src) && Under(Child(src, n), p) && n !in done
    requires Within(src, done, no) && Within(src, {n}, more)
    requires HeldAt(f, src, dst, policy, no + more, x) && (Under(p, x) || Under(x, p))
    ensures Under(Child(src, n), x) && x !in no
  {
    assert x != src;
    assert x[|src|] == p[|src|] == n;
    UnderChild(src, x);
  }

  lemma BlockedSame(f: FS, g: FS, src: Path, dst: Path, n: Name, policy: Policy, now: Policy, x: Path)
    requires WellFormed(f) && WellFormed(g) && MoveSafe(f, src, dst) && Same(f, g, src) && PolicyNow(policy, now)
    requires Untouched(f, g, Child(src, n), Child(dst, n), src) && Under(Child(src, n), x)
    ensures Under(src, x)
    ensures Blocked(f, x, Rebase(x, src, dst), policy) <==> Blocked(g, x, Rebase(x, Child(src, n), Child(dst, n)), now)
  {
    ChildPair(f, g, src, dst, n, x);
  }

  lemma StaysChild(f: FS, g: FS, src: Path, dst: Path, n: Name, policy: Policy, now: Policy, done: set<Name>,
                   no: set<Path>, more: set<Path>, p: Path)
    requires WellFormed(f) && WellFormed(g) && MoveSafe(f, src, dst) && Same(f, g, src) && PolicyNow(policy, now)
    requires IsDir(f, src) && n !in done
    requires Untouched(f, g, Child(src, n), Child(dst, n), src) && Under(Child(src, n), p)
    requires Within(src, done, no) && Within(src, {n}, more)
    ensures Stays(f, src, dst, policy, no + more, p) <==> Stays(g, Child(src, n), Child(dst, n), now, more, p)
  {
    hide Blocked, MoveSafe, WellFormed, Untouched;
    var c, d := Child(src, n), Child(dst, n);
    if Stays(f, src, dst, policy, no + more, p) {
      var x :| HeldAt(f, src, dst, policy, no + more, x) && (Under(p, x) || Under(x, p));
      HeldUnblocked(f, src, dst, policy, no + more, x);
      HeldInChild(f, src, dst, n, policy, done, no, more, p, x);
      BlockedSame(f, g, src, dst, n, policy, now, x);
      assert HeldAt(g, c, d, now, more, x);
    }
    if Stays(g, c, d, now, more, p) {
      var x :| HeldAt(g, c, d, now, more, x) && (Under(p, x) || Under(x, p));
      BlockedSame(f, g, src, dst, n, policy, now, x);
      assert HeldAt(f, src, dst, policy, no + more, x);
    }
  }

  lemma HeldUnblocked(f: FS, src: Path, dst: Path, policy: Policy, no: set<Path>, x: Path)
    requires HeldAt(f, src, dst, policy, no, x)
    ensures x in no || !IsDir(f, x)
  {
  }

  /** A refusal in one child means nothing to the others. */
  lemma StaysOther(f: FS, src: Path, dst: Path, n: Name, policy: Policy, no: set<Path>, more: set<Path>, p: Path)
    requires Under(src, p) && p != src && p[|src|] != n && Within(src, {n}, more)
    ensures Stays(f, src, dst, policy, no + more, p) <==> Stays(f, src, dst, policy, no, p)
  {
  }

  lemma CompleteAsking(f: FS, g: FS, src: Path, dst: Path, policy: Policy, now: Policy, no: set<Path>)
    requires PolicyNow(policy, now)
    ensures Complete(f, g, src, dst, now, no) ==> Complete(f, g, src, dst, policy, no)
  {
  }

  /** A move of something that is not a directory, or to a place that can be cleared. */
  lemma CompleteWhole(f: FS, f1: FS, src: Path, dst: Path, policy: Policy)
    requires WellFormed(f) && WellFormed(f1) && Apart(src, dst) && src in f
    requires Cleared(f, f1, src, dst, policy)
    requires !Blocked(f, src, dst, policy)
    ensures forall p :: p in f1 ==> !Under(dst, p)
    ensures Complete(f, Renamed(f1, src, dst), src, dst, policy, {})
  {
    NothingBelow(f1, dst);
    assert Rebase(src, src, dst) == dst;
    forall x ensures !HeldAt(f, src, dst, policy, {}, x) {
      if Under(src, x) && Rebase(x, src, dst) in f { ClearedOnly(f, f1, src, dst, x, policy); }
    }
    forall p | p in f && Under(src, p)
      ensures p !in Renamed(f1, src, dst)
    {
      ApartAt(src, dst, p);
      RenamedAt(f1, src, dst, p);
    }
  }

  /** Doing nothing is complete when there is nothing to move, or it is refused or blocked. */
  lemma CompleteNothing(f: FS, src: Path, dst: Path, policy: Policy, no: set<Path>)
    requires WellFormed(f)
    requires src !in f || src in no || Blocked(f, src, dst, policy)
    ensures Complete(f, f, src, dst, policy, no)
  {
    if src !in f {
      NothingBelow(f, src);
    } else {
      assert Rebase(src, src, dst) == dst;
      forall p | p in f && Under(src, p)
        ensures Stays(f, src, dst, policy, no, p)
      {
        assert HeldAt(f, src, dst, policy, no, src) && Under(src, p);
      }
    }
  }

  /** The children in `done` have been moved completely. */
  ghost predicate DoneChildren(f: FS, g: FS, src: Path, dst: Path, policy: Policy, no: set<Path>, done: set<Name>) {
    forall p :: p in f && Under(src, p) && p != src && p[|src|] in done
      ==> (p in g <==> Stays(f, src, dst, policy, no, p))
  }

  lemma DoneNone(f: FS, src: Path, dst: Path, policy: Policy)
    ensures DoneChildren(f, f, src, dst, policy, {}, {})
  {
  }

  lemma DoneChild(f: FS, g: FS, h: FS, src: Path, dst: Path, policy: Policy, now: Policy, done: set<Name>, n: Name,
                  no: set<Path>, more: set<Path>)
    requires WellFormed(f) && WellFormed(g) && MoveSafe(f, src, dst) && Same(f, g, src) && PolicyNow(policy, now)
    requires IsDir(f, src) && n !in done
    requires DoneChildren(f, g, src, dst, policy, no, done) && Within(src, done, no)
    requires Untouched(f, g, Child(src, n), Child(dst, n), src)
    requires Moved(g, h, Child(src, n), Child(dst, n), now) && Obeyed(g, h, Child(src, n), Child(dst, n), more)
    requires Complete(g, h, Child(src, n), Child(dst, n), now, more)
    ensures DoneChildren(f, h, src, dst, policy, no + more, done + {n})
  {
    hide Stays, MoveSafe, WellFormed, Moved;
    ObeyedWithin(g, h, src, dst, n, more);
    forall p | p in f && Under(src, p) && p != src && p[|src|] in done + {n}
      ensures p in h <==> Stays(f, src, dst, policy, no + more, p)
    {
      UnderChild(src, p);
      if p[|src|] == n {
        StaysChild(f, g, src, dst, n, policy, now, done, no, more, p);
      } else {
        StaysOther(f, src, dst, n, policy, no, more, p);
        SiblingAt(src, p[|src|], n, p);
        KeptSource(f, g, h, src, dst, n, now, p);
      }
    }
  }

  lemma ObeyedWithin(g: FS, h: FS, src: Path, dst: Path, n: Name, more: set<Path>)
    requires Obeyed(g, h, Child(src, n), Child(dst, n), more)
    ensures Within(src, {n}, more)
  {
    forall x | x in more ensures Under(src, x) && x != src && x[|src|] == n {
      UnderTrans(src, Child(src, n), x);
    }
  }

  /** With all children done, the source directory is empty exactly when nothing in it was
      held. */
  lemma CompleteMerge(f: FS, g: FS, src: Path, dst: Path, policy: Policy, no: set<Path>)
    requires WellFormed(f) && WellFormed(g) && IsDir(f, src) && IsDir(f, dst)
    requires Moved(f, g, src, dst, policy) && src in g && Obeyed(f, g, src, dst, no)
    requires DoneChildren(f, g, src, dst, policy, no, Listing(f, src)) && Within(src, Listing(f, src), no)
    ensures Complete(f, if Listing(g, src) == {} then g - {src} else g, src, dst, policy, no)
  {
    hide Moved;
    var h := if Listing(g, src) == {} then g - {src} else g;
    forall p | p in f && Under(src, p) && p != src
      ensures p in h <==> Stays(f, src, dst, policy, no, p)
    {
      ListingComplete(f, src, p);
    }
    if Listing(g, src) != {} {
      var n :| n in Listing(g, src);
      HeldChild(f, g, src, dst, policy, no, n);
    } else if Stays(f, src, dst, policy, no, src) {
      var x :| HeldAt(f, src, dst, policy, no, x) && (Under(src, x) || Under(x, src));
      ListingComplete(f, src, x);
      assert Under(x, x) && Stays(f, src, dst, policy, no, x);
      ListingComplete(g, src, x);
    }
  }

  /** A child that is left over means that something in the directory was held. */
  lemma HeldChild(f: FS, g: FS, src: Path, dst: Path, policy: Policy, no: set<Path>, n: Name)
    requires WellFormed(f) && Moved(f, g, src, dst, policy)
    requires DoneChildren(f, g, src, dst, policy, no, Listing(f, src)) && n in Listing(g, src)
    ensures Stays(f, src, dst, policy, no, src)
  {
    ListingSound(g, src, n);
    var c := Child(src, n);
    assert Under(src, c) && c in f;
    ListingComplete(f, src, c);
    var x :| HeldAt(f, src, dst, policy, no, x) && (Under(c, x) || Under(x, c));
    assert HeldAt(f, src, dst, policy, no, x) && Under(src, x);
  }

  // ----- consent

  /** What stood at the destination has changed, and what was in the source has left it, only by
      consent, the user having been asked where that is due. */
  ghost predicate ByConsent(f: FS, g: FS, src: Path, dst: Path, policy: Policy, es: seq<Event>) {
    && (forall p :: Under(src, p) && p in f ==>
          && (Rebase(p, src, dst) in f && !Same(f, g, Rebase(p, src, dst)) ==> Consents(es, p))
          && (p !in g ==> LeaveToGo(f, src, dst, es, p)))
    && Orderly(f, src, dst, policy, es)
  }

  /** There is consent to move the entry, or to move a directory it is in as a whole. */
  ghost predicate LeaveToGo(f: FS, src: Path, dst: Path, es: seq<Event>, p: Path)
    requires Under(src, p)
  {
    exists x :: Under(src, x) && Under(x, p) && x in f && Consents(es, x) &&
      (x == p || !(IsDir(f, x) && IsDir(f, Rebase(x, src, dst))))
  }

  lemma NothingByConsent(f: FS, src: Path, dst: Path, policy: Policy, es: seq<Event>)
    requires OneAsked(f, src, dst, policy, es)
    ensures ByConsent(f, f, src, dst, policy, es)
  {
    OneOrderly(f, src, dst, policy, es);
  }

  /** An entry that is not merged, moved or not. */
  lemma WholeByConsent(f: FS, g: FS, src: Path, dst: Path, policy: Policy, top: seq<Event>)
    requires OneAsked(f, src, dst, policy, top) && Consents(top, src) && src in f
    requires !(IsDir(f, src) && IsDir(f, dst))
    requires forall p :: Under(src, p) && Rebase(p, src, dst) in f ==> p == src
    ensures ByConsent(f, g, src, dst, policy, top)
  {
    OneOrderly(f, src, dst, policy, top);
    hide Consents, Orderly;
    assert Rebase(src, src, dst) == dst;
  }

  /** A place that the move of one child has nothing to do with. */
  lemma ElsewhereSame(f: FS, g: FS, h: FS, src: Path, dst: Path, n: Name, now: Policy, p: Path)
    requires WellFormed(f) && WellFormed(g) && MoveSafe(f, src, dst) && Same(f, g, src)
    requires Untouched(f, g, Child(src, n), Child(dst, n), src)
    requires Moved(g, h, Child(src, n), Child(dst, n), now)
    requires Under(src, p) && !Under(Child(src, n), p)
    ensures Same(g, h, p) && (p in f ==> Same(g, h, Rebase(p, src, dst)))
  {
    var q := Rebase(p, src, dst);
    KeptSource(f, g, h, src, dst, n, now, p);
    if p in f {
      RebaseUnder(src, dst, n, p);
      if Under(src, q) {
        InSource(f, src, dst, p);
        KeptSource(f, g, h, src, dst, n, now, src);
      } else if Under(Child(src, n), q) {
        UnderTrans(src, Child(src, n), q);
      }
    }
  }

  /** One more child. */
  lemma ChildByConsent(f: FS, g: FS, h: FS, src: Path, dst: Path, n: Name, policy: Policy, now: Policy,
                       es: seq<Event>, more: seq<Event>)
    requires WellFormed(f) && WellFormed(g) && MoveSafe(f, src, dst) && Same(f, g, src)
    requires Untouched(f, g, Child(src, n), Child(dst, n), src)
    requires Moved(g, h, Child(src, n), Child(dst, n), now)
    requires ByConsent(f, g, src, dst, policy, es) && ByConsent(g, h, Child(src, n), Child(dst, n), now, more)
    requires PolicyNow(policy, now) && (now == ReplaceAll ==> policy == ReplaceAll || ForAll(es))
    ensures ByConsent(f, h, src, dst, policy, es + more)
  {
    hide MoveSafe, WellFormed, Moved, Untouched, Orderly, ForAll, PolicyNow, Consents;
    var c, d := Child(src, n), Child(dst, n);
    forall p | Under(src, p) && p in f
      ensures Rebase(p, src, dst) in f && !Same(f, h, Rebase(p, src, dst)) ==> Consents(es + more, p)
      ensures p !in h ==> LeaveToGo(f, src, dst, es + more, p)
    {
      ConsentsMore(es, more, p);
      if Under(c, p) {
        ChildPair(f, g, src, dst, n, p);
        if p !in h { LeaveInChild(f, g, src, dst, n, es, more, p); }
      } else {
        ElsewhereSame(f, g, h, src, dst, n, now, p);
        if p !in h { LeaveMore(f, src, dst, es, more, p); }
      }
    }
    forall e | e in more && e.Weighed? && Under(c, e.path) && e.path in g
      ensures Under(src, e.path) && Rebase(e.path, src, dst) == Rebase(e.path, c, d)
      ensures Same(f, g, e.path) && Same(f, g, Rebase(e.path, c, d))
    {
      ChildPair(f, g, src, dst, n, e.path);
    }
    OrderlyThen(f, g, src, dst, c, d, policy, now, es, more);
  }

  lemma LeaveMore(f: FS, src: Path, dst: Path, es: seq<Event>, more: seq<Event>, p: Path)
    requires Under(src, p) && (LeaveToGo(f, src, dst, es, p) || LeaveToGo(f, src, dst, more, p))
    ensures LeaveToGo(f, src, dst, es + more, p)
  {
    hide Consents;
    var x :| Under(src, x) && Under(x, p) && x in f && (Consents(es, x) || Consents(more, x)) &&
      (x == p || !(IsDir(f, x) && IsDir(f, Rebase(x, src, dst))));
    ConsentsMore(es, more, x);
  }

  lemma LeaveInChild(f: FS, g: FS, src: Path, dst: Path, n: Name, es: seq<Event>, more: seq<Event>, p: Path)
    requires WellFormed(f) && WellFormed(g) && MoveSafe(f, src, dst) && Same(f, g, src)
    requires Untouched(f, g, Child(src, n), Child(dst, n), src)
    requires Under(Child(src, n), p) && LeaveToGo(g, Child(src, n), Child(dst, n), more, p)
    ensures Under(src, p) && LeaveToGo(f, src, dst, es + more, p)
  {
    hide MoveSafe, WellFormed, Untouched, Consents;
    var c, d := Child(src, n), Child(dst, n);
    var x :| Under(c, x) && Under(x, p) && x in g && Consents(more, x) &&
      (x == p || !(IsDir(g, x) && IsDir(g, Rebase(x, c, d))));
    UnderTrans(src, c, p);
    UnderTrans(src, c, x);
    ChildPair(f, g, src, dst, n, x);
    ConsentsMore(es, more, x);
    var y := Rebase(x, src, dst);
    assert x in f && Same(f, g, x) && Same(f, g, y) && y == Rebase(x, c, d);
    assert IsDir(f, x) == IsDir(g, x) && IsDir(f, y) == IsDir(g, y);
    assert x == p || !(IsDir(g, x) && IsDir(g, Rebase(x, c, d)));
    assert x == p || !(IsDir(f, x) && IsDir(f, y));
  }

  /** A directory that has been merged, and then removed or not. */
  lemma MergedByConsent(f: FS, g0: FS, g: FS, src: Path, dst: Path, policy: Policy, p0: Policy,
                        top: seq<Event>, es: seq<Event>)
    requires WellFormed(f) && MoveSafe(f, src, dst) && src in f && (g == g0 || g == g0 - {src})
    requires Moved(f, g, src, dst, p0) && OneAsked(f, src, dst, policy, top) && Consents(top, src)
    requires ByConsent(f, g0, src, dst, p0, es)
    requires PolicyNow(policy, p0) && (p0 == ReplaceAll ==> policy == ReplaceAll || ForAll(top))
    ensures ByConsent(f, g, src, dst, policy, top + es)
  {
    hide MoveSafe, WellFormed, Orderly, ForAll, PolicyNow, Consents, OneAsked, Moved;
    OneOrderly(f, src, dst, policy, top);
    forall p | Under(src, p) && p in f
      ensures Rebase(p, src, dst) in f && !Same(f, g, Rebase(p, src, dst)) ==> Consents(top + es, p)
      ensures p !in g ==> LeaveToGo(f, src, dst, top + es, p)
    {
      ConsentsMore(top, es, p);
      if p !in g0 { LeaveMore(f, src, dst, top, es, p); }
      if Rebase(p, src, dst) == src { SourceStays(f, g, src, dst, p0, p); }
    }
    OrderlyThen(f, f, src, dst, src, dst, policy, p0, top, es);
  }

  /** An entry whose counterpart is the source itself is blocked by it. */
  lemma SourceStays(f: FS, g: FS, src: Path, dst: Path, policy: Policy, p: Path)
    requires WellFormed(f) && MoveSafe(f, src, dst) && Moved(f, g, src, dst, policy)
    requires Under(src, p) && p in f && Rebase(p, src, dst) == src
    ensures Same(f, g, src)
  {
    InSource(f, src, dst, p);
    assert PairOk(f, g, p, src, policy);
  }

  // ----- the procedure

  /** do_move2, for any destination that is not the source or inside it. */
  method DoMove2(w: World, path: Path, dest: Path) returns (ghost no: set<Path>, ghost es: seq<Event>)
    requires WellFormed(w.fs) && path != [] && !Under(path, w.MakeDestPath(path, dest)) && !w.exited
    modifies w
    ensures WellFormed(w.fs)
    ensures |dest| < |path| ==> Depth(w.fs) <= old(Depth(w.fs))
    ensures w.refused == old(w.refused) + no
    ensures PolicyNow(old(w.policy), w.policy)
    ensures old(w.actionLeaf) == None ==> w.actionLeaf == None
    ensures Steps(old(w.fs).Keys, old(w.fs), w.fs, path, old(w.MakeDestPath(path, dest)))
    ensures MoveSafe(old(w.fs), path, old(w.MakeDestPath(path, dest))) ==>
              && Moved(old(w.fs), w.fs, path, old(w.MakeDestPath(path, dest)), old(w.policy))
              && Obeyed(old(w.fs), w.fs, path, old(w.MakeDestPath(path, dest)), no)
    // Nothing changes without consent, and the user is asked when that is due.
    ensures MoveSafe(old(w.fs), path, old(w.MakeDestPath(path, dest))) ==>
              ByConsent(old(w.fs), w.fs, path, old(w.MakeDestPath(path, dest)), old(w.policy), es)
    ensures w.events == old(w.events) + es && Heard(old(w.InputNow()), w.InputNow(), es)
    ensures w.policy == ReplaceAll ==> old(w.policy) == ReplaceAll || ForAll(es)
    // Unless something failed or the parent died, an entry is still at its source exactly when
    // it or something above or below it was refused or blocked.
    ensures MoveSafe(old(w.fs), path, old(w.MakeDestPath(path, dest)))
            && !w.faults && !w.exited && IsDir(old(w.fs), dest) ==>
              Complete(old(w.fs), w.fs, path, old(w.MakeDestPath(path, dest)), old(w.policy), no)
    // Left to a policy, the run is the one of `Moving`.
    ensures old(Automatic(w)) ==>
              && Automatic(w) && no == PolicyRefuses(old(w.fs), path, old(w.MakeDestPath(path, dest)), old(w.policy))
              && forall k: nat ::
                   var run := Moving(w.chance, old(w.fs), path, old(w.MakeDestPath(path, dest)), old(w.policy), k);
                   run.Some? ==> w.fs == run.value
    decreases if Under(w.MakeDestPath(path, dest), path) then 1 else 0,
              if Under(w.MakeDestPath(path, dest), path) then Below(w.fs, path) else |Subtree(w.fs, path)|, 2
  {
    hide Moved, Complete, Blocked, Cleared, WellFormed, Apart, Obeyed, Untouched, MoveSafe, MovingInto, Shifted, Depth,
         Steps, Heard, Consents, OneAsked, Opening, ForAll, ByConsent, Stopping, Dead;
    ghost var f, policy, input := w.fs, w.policy, w.InputNow();
    var dst := w.MakeDestPath(path, dest);
    MovedNothing(f, path, dst, policy);
    assert dst != [] && Parent(dst) == dest;
    ObeyedNothing(f, path, dst);
    NoSteps(f.Keys, f, path, dst);
    var go, merge;
    go, merge, no, es := MakeRoom(w, path, dst);
    if !go {
      NothingByConsent(f, path, dst, policy, es);
      if !w.faults && !w.exited { CompleteNothing(f, path, dst, policy, no); }
      return;
    }
    ObeyedNone(f, path, dst);
    if merge {
      w.actionLeaf := None;
      ghost var now, heard, top := w.policy, w.InputNow(), es;
      no, es := MergeInto(w, path, dst, top, policy);
      HeardThen(input, heard, w.InputNow(), top, es);
      ForAllMore(top, es);
      es := top + es;
      if MoveSafe(f, path, dst) {
        MovedAsking(f, w.fs, path, dst, now);
        CompleteAsking(f, w.fs, path, dst, policy, now, no);
      }
    } else {
      ClearedApart(f, w.fs, path, dst, policy);
      StepsCleared(f, w.fs, path, dst, policy);
      ClearedPairs(f, w.fs, path, dst, policy);
      Rename(w, f, path, dst, policy);
      WholeByConsent(f, w.fs, path, dst, policy, es);
    }
  }

  lemma ClearedPairs(f: FS, f1: FS, src: Path, dst: Path, policy: Policy)
    requires WellFormed(f1) && Cleared(f, f1, src, dst, policy)
    ensures src in f && !(IsDir(f, src) && IsDir(f, dst))
    ensures forall p :: Under(src, p) && Rebase(p, src, dst) in f ==> p == src
  {
    forall p | Under(src, p) && Rebase(p, src, dst) in f ensures p == src {
      ClearedOnly(f, f1, src, dst, p, policy);
    }
  }

  /** The `mv` of do_move2, onto a place that has been cleared. */
  method Rename(w: World, ghost f: FS, path: Path, dst: Path, ghost policy: Policy)
    requires WellFormed(f) && WellFormed(w.fs) && Apart(path, dst) && Cleared(f, w.fs, path, dst, policy) && dst != []
    requires Steps(f.Keys, f, w.fs, path, dst)
    modifies w`fs
    ensures WellFormed(w.fs) && Moved(f, w.fs, path, dst, policy) && Steps(f.Keys, f, w.fs, path, dst)
    ensures |dst| <= |path| ==> Depth(w.fs) <= Depth(f)
    ensures !w.faults && IsDir(f, Parent(dst)) && !Blocked(f, path, dst, policy) ==>
              Complete(f, w.fs, path, dst, policy, {})
    ensures !w.faults ==> w.fs == Shifted(f, path, dst)
  {
    hide Moved, Complete, Blocked, Renamed, Cleared, Shifted, Depth, WellFormed, Steps;
    ghost var f1 := w.fs;
    ShiftedIs(f, f1, path, dst, policy);
    StepsRenamed(f, f1, path, dst);
    MovedWhole(f, f1, path, dst, policy);
    if !Blocked(f, path, dst, policy) { CompleteWhole(f, f1, path, dst, policy); }
    RenamedDepth(f1, path, dst);
    var ok := w.Mv(path, dst);
  }

  lemma ShiftedIs(f: FS, f1: FS, src: Path, dst: Path, policy: Policy)
    requires WellFormed(f1) && Apart(src, dst) && Cleared(f, f1, src, dst, policy) && dst != []
    ensures dst !in f1 && forall p :: p in f1 ==> !Under(dst, p)
    ensures src in f && src in f1 && (IsDir(f, Parent(dst)) ==> IsDir(f1, Parent(dst))) && Depth(f1) <= Depth(f)
    ensures Shifted(f, src, dst) == if IsDir(f1, Parent(dst)) then Renamed(f1, src, dst) else f1
  {
    hide Renamed, Depth;
    ClearedIs(f, f1, src, dst, policy);
    hide WellFormed, Cleared;
    RemovedDepth(f, dst);
  }

  lemma ClearedIs(f: FS, f1: FS, src: Path, dst: Path, policy: Policy)
    requires WellFormed(f1) && Apart(src, dst) && Cleared(f, f1, src, dst, policy) && dst != []
    ensures f1 == f - {dst} && src in f && src in f1 && Parent(dst) != dst
    ensures forall p :: p in f1 ==> !Under(dst, p)
  {
    NothingBelow(f1, dst);
  }

  lemma RenamedDepth(f: FS, src: Path, dst: Path)
    requires Apart(src, dst) && forall p :: p in f ==> !Under(dst, p)
    ensures |dst| <= |src| ==> Depth(Renamed(f, src, dst)) <= Depth(f)
  {
    if |dst| <= |src| {
      var g := Renamed(f, src, dst);
      forall q | q in g ensures |q| <= Depth(f) {
        RenamedAt(f, src, dst, q);
      }
      DepthLeast(g, Depth(f));
    }
  }

  /** The merging branch of do_move2: move the contents, then try to remove the directory. */
  method MergeInto(w: World, path: Path, dst: Path, ghost top: seq<Event>, ghost policy: Policy)
    returns (ghost no: set<Path>, ghost es: seq<Event>)
    requires WellFormed(w.fs) && !Under(path, dst) && w.actionLeaf == None && !w.exited
    requires IsDir(w.fs, path) && IsDir(w.fs, dst)
    requires OneAsked(w.fs, path, dst, policy, top) && Consents(top, path) && PolicyNow(policy, w.policy)
    requires w.policy == ReplaceAll ==> policy == ReplaceAll || ForAll(top)
    modifies w
    ensures WellFormed(w.fs) && w.actionLeaf == None
    ensures |dst| <= |path| ==> Depth(w.fs) <= old(Depth(w.fs))
    ensures w.refused == old(w.refused) + no && PolicyNow(old(w.policy), w.policy)
    ensures Steps(old(w.fs).Keys, old(w.fs), w.fs, path, dst)
    ensures MoveSafe(old(w.fs), path, dst) ==>
              Moved(old(w.fs), w.fs, path, dst, old(w.policy)) && Obeyed(old(w.fs), w.fs, path, dst, no)
    ensures MoveSafe(old(w.fs), path, dst) ==> ByConsent(old(w.fs), w.fs, path, dst, policy, top + es)
    ensures w.events == old(w.events) + es && Heard(old(w.InputNow()), w.InputNow(), es)
    ensures w.policy == ReplaceAll ==> old(w.policy) == ReplaceAll || ForAll(es)
    ensures MoveSafe(old(w.fs), path, dst) && !w.faults && !w.exited ==>
              Complete(old(w.fs), w.fs, path, dst, old(w.policy), no)
    ensures old(Automatic(w)) && old(w.policy) != SkipExisting ==>
              && Automatic(w) && no == {}
              && forall k: nat :: var run := MovingInto(w.chance, old(w.fs), path, dst, old(w.policy), k);
                   run.Some? ==> w.fs == run.value
    decreases if Under(dst, path) then 1 else 0,
              if Under(dst, path) then Below(w.fs, path) else |Subtree(w.fs, path)|, 1
  {
    hide Moved, Complete, DoneChildren, Obeyed, Within, MoveSafe, MovingAll, Depth, WellFormed, MovedSoFar, Steps,
         Heard, Consents, OneAsked, ForAll, ByConsent, Listing;
    ghost var f, p0, input := w.fs, w.policy, w.InputNow();
    no, es := MoveContents(w, path, dst);
    ghost var g := w.fs;
    if w.exited {
      if MoveSafe(f, path, dst) { MergedByConsent(f, g, g, path, dst, policy, p0, top, es); }
      return;
    }
    RemovedDepth(g, path);
    if IsDir(g, path) && Listing(g, path) == {} { StepsEmptied(f, g, path, dst); }
    ghost var heard, before := w.InputNow(), es;
    w.Rmdir(path);
    if w.events != old(w.events) + before {
      es := before + [Denied(path)];
      HeardElse(input, heard, before, Denied(path));
      ForAllMore(before, [Denied(path)]);
    }
    if MoveSafe(f, path, dst) { MergeEnds(f, g, w.fs, path, dst, policy, p0, no, top, before, es, w.faults); }
  }

  /** What rmdir makes of a source whose entries have been dealt with. */
  lemma MergeEnds(f: FS, g: FS, h: FS, src: Path, dst: Path, policy: Policy, p0: Policy, no: set<Path>,
                  top: seq<Event>, before: seq<Event>, es: seq<Event>, faults: bool)
    requires WellFormed(f) && WellFormed(g) && MoveSafe(f, src, dst) && IsDir(f, src) && IsDir(f, dst) && IsDir(g, src)
    requires Moved(f, g, src, dst, p0) && Obeyed(f, g, src, dst, no) && Within(src, Listing(f, src), no)
    requires ByConsent(f, g, src, dst, p0, before) && (es == before || es == before + [Denied(src)])
    requires OneAsked(f, src, dst, policy, top) && Consents(top, src) && PolicyNow(policy, p0)
    requires p0 == ReplaceAll ==> policy == ReplaceAll || ForAll(top)
    requires h == g || (h == g - {src} && Listing(g, src) == {})
    requires !faults ==> DoneChildren(f, g, src, dst, p0, no, Listing(f, src)) && (Listing(g, src) == {} ==> h != g)
    ensures Moved(f, h, src, dst, p0) && Obeyed(f, h, src, dst, no)
    ensures ByConsent(f, h, src, dst, policy, top + es)
    ensures !faults ==> Complete(f, h, src, dst, p0, no)
  {
    hide Moved, Complete, DoneChildren, Obeyed, Within, MoveSafe, WellFormed, Consents, OneAsked, ForAll, ByConsent,
         PolicyNow, Listing;
    ObeyedEmptied(f, g, src, dst, Listing(f, src), no);
    if Listing(g, src) == {} { MovedEmptied(f, g, src, dst, p0); }
    DeniedConsent(f, g, src, dst, p0, before);
    MergedByConsent(f, g, h, src, dst, policy, p0, top, es);
    if !faults { CompleteMerge(f, g, src, dst, p0, no); }
  }

  lemma DeniedConsent(f: FS, g: FS, src: Path, dst: Path, policy: Policy, es: seq<Event>)
    ensures ByConsent(f, g, src, dst, policy, es) ==> ByConsent(f, g, src, dst, policy, es + [Denied(src)])
  {
    hide Consents;
    if ByConsent(f, g, src, dst, policy, es) {
      ElseByConsent(f, g, src, dst, policy, es, Denied(src));
    }
  }

  /** Something else happens. */
  lemma ElseByConsent(f: FS, g: FS, src: Path, dst: Path, policy: Policy, es: seq<Event>, e: Event)
    requires ByConsent(f, g, src, dst, policy, es) && !e.Goes()
    ensures ByConsent(f, g, src, dst, policy, es + [e])
  {
    hide Consents, AskedRightly;
    forall p | Under(src, p) && p in f
      ensures Rebase(p, src, dst) in f && !Same(f, g, Rebase(p, src, dst)) ==> Consents(es + [e], p)
      ensures p !in g ==> LeaveToGo(f, src, dst, es + [e], p)
    {
      ConsentsMore(es, [e], p);
      if p !in g { LeaveMore(f, src, dst, es, [e], p); }
    }
    assert Orderly(f, src, dst, policy, es + [e]) by {
      assert forall i :: 0 <= i <= |es| ==> (es + [e])[..i] == es[..i];
    }
  }

  lemma RemovedDepth(f: FS, p: Path)
    ensures Depth(f - {p}) <= Depth(f)
  {
    DepthLeast(f - {p}, Depth(f));
  }

  /** for_dir_contents(do_move2, path, dst) */
  method MoveContents(w: World, path: Path, dst: Path) returns (ghost no: set<Path>, ghost es: seq<Event>)
    requires WellFormed(w.fs) && !Under(path, dst) && w.actionLeaf == None && !w.exited
    requires IsDir(w.fs, path) && IsDir(w.fs, dst)
    modifies w
    ensures WellFormed(w.fs) && w.actionLeaf == None
    ensures |dst| <= |path| ==> Depth(w.fs) <= old(Depth(w.fs))
    ensures w.refused == old(w.refused) + no && PolicyNow(old(w.policy), w.policy)
    ensures Steps(old(w.fs).Keys, old(w.fs), w.fs, path, dst)
    ensures MoveSafe(old(w.fs), path, dst) ==>
              && Moved(old(w.fs), w.fs, path, dst, old(w.policy)) && IsDir(w.fs, path)
              && Obeyed(old(w.fs), w.fs, path, dst, no) && Within(path, Listing(old(w.fs), path), no)
    ensures MoveSafe(old(w.fs), path, dst) ==> ByConsent(old(w.fs), w.fs, path, dst, old(w.policy), es)
    ensures w.events == old(w.events) + es && Heard(old(w.InputNow()), w.InputNow(), es)
    ensures w.policy == ReplaceAll ==> old(w.policy) == ReplaceAll || ForAll(es)
    ensures MoveSafe(old(w.fs), path, dst) && !w.faults && !w.exited ==>
              DoneChildren(old(w.fs), w.fs, path, dst, old(w.policy), no, Listing(old(w.fs), path))
    ensures old(Automatic(w)) && old(w.policy) != SkipExisting ==>
              && Automatic(w) && no == {}
              && var names := w.chance.order(path, Listing(old(w.fs), path));
                 Lists(names, Listing(old(w.fs), path)) ==>
                   forall k: nat :: var run := MovingAll(w.chance, old(w.fs), path, dst, old(w.policy), names, k);
                     run.Some? ==> w.fs == run.value
    decreases if Under(dst, path) then 1 else 0,
              if Under(dst, path) then Below(w.fs, path) else |Subtree(w.fs, path)|, 0
  {
    hide Moved, Complete, Untouched, DoneChildren, Obeyed, Within, MoveSafe, Moving, MovingAll, Depth, Below,
         WellFormed, Lists, Listing, Subtree, Under, Steps, PolicyNow, Underway, Heard, ForAll, ByConsent;
    no, es := {}, [];
    ghost var f, policy, input := w.fs, w.policy, w.InputNow();
    HeardNothing(input);
    ghost var auto := Automatic(w) && policy != SkipExisting;
    Begin(w.chance, f, path, dst, policy, auto);
    var ok := w.OpenDir(path);
    if !ok {
      es := [Unlisted(path)];
      assert [] + es == es;
      HeardElse(input, input, [], Unlisted(path));
      return;
    }
    var names := w.ReadDir(path);
    ghost var done: set<Name> := {};
    var i := 0;
    assert names[0..] == names;
    while i < |names| && !w.exited
      invariant 0 <= i <= |names| && w.actionLeaf == None && w.refused == old(w.refused) + no
      invariant auto ==> Automatic(w)
      invariant w.events == old(w.events) + es && Heard(input, w.InputNow(), es)
      invariant Underway(w.chance, f, w.fs, path, dst, policy, w.policy, names, i, done, no, es,
                         !w.faults && !w.exited, auto)
      decreases |names| - i
    {
      ghost var g, now, heard := w.fs, w.policy, w.InputNow();
      NextEntry(w.chance, f, g, path, dst, policy, now, names, i, done, no, es, !w.faults, auto);
      ghost var more, es1 := DoMove2(w, Child(path, names[i]), dst);
      EntryDone(w.chance, f, g, w.fs, path, dst, policy, now, w.policy, names, i, done, no, more, es, es1,
                !w.faults, !w.faults && !w.exited, auto);
      HeardThen(input, heard, w.InputNow(), es, es1);
      no, es, done, i := no + more, es + es1, done + {names[i]}, i + 1;
    }
    StopShort(w.chance, f, w.fs, path, dst, policy, w.policy, names, i, done, no, es, !w.faults && !w.exited, auto);
  }

  // ----- the loop

  /** What holds when `i` children have been dealt with; those in `names[i..]` wait. */
  ghost predicate Underway(c: Chance, f: FS, g: FS, src: Path, dst: Path, policy: Policy, now: Policy,
                           names: seq<Name>, i: nat, done: set<Name>, no: set<Path>, es: seq<Event>,
                           calm: bool, auto: bool)
    requires i <= |names|
  {
    && (now == ReplaceAll ==> policy == ReplaceAll || ForAll(es))
    && WellFormed(g) && (|dst| <= |src| ==> Depth(g) <= Depth(f)) && PolicyNow(policy, now)
    && Steps(f.Keys, f, g, src, dst)
    && Lists(names[i..], Listing(f, src) - done) && done <= Listing(f, src) && WayBack(f, g, src, dst, done)
    && (MoveSafe(f, src, dst) ==>
          && Moved(f, g, src, dst, policy) && Same(f, g, src)
          && (forall n :: n in Listing(f, src) - done ==> Untouched(f, g, Child(src, n), Child(dst, n), src))
          && Obeyed(f, g, src, dst, no) && Within(src, done, no) && ByConsent(f, g, src, dst, policy, es)
          && (calm ==> DoneChildren(f, g, src, dst, policy, no, done)))
    && (auto ==> now == policy && no == {} && MovedSoFar(c, f, g, src, dst, policy, names, i))
  }

  /** The child that leads back into the source is as it was, until its turn comes. */
  ghost predicate WayBack(f: FS, g: FS, src: Path, dst: Path, done: set<Name>) {
    Over(src, dst) && src[|dst|] in Listing(f, src) - done ==>
      forall p :: Under(Child(src, src[|dst|]), p) ==> Same(f, g, p)
  }

  /** The steps for one more child. */
  lemma ChildTaken(f: FS, g: FS, h: FS, src: Path, dst: Path, done: set<Name>, n: Name)
    requires src in f && n in Listing(f, src) - done && !Under(src, dst) && WayBack(f, g, src, dst, done)
    requires Steps(f.Keys, f, g, src, dst) && Steps(g.Keys, g, h, Child(src, n), Child(dst, n))
    ensures Steps(f.Keys, f, h, src, dst) && WayBack(f, h, src, dst, done + {n})
  {
    hide Steps, Listing;
    var c, d := Child(src, n), Child(dst, n);
    ApartOrOver(src, dst);
    ListingSound(f, src, n);
    if Over(src, dst) { OverChildren(src, dst, n); } else { ApartChildren(src, dst, n); }
    StepsChild(g.Keys, f.Keys, g, h, src, dst, n);
    StepsThen(f.Keys, f, g, h, src, dst);
    if Over(src, dst) && src[|dst|] in Listing(f, src) - (done + {n}) {
      forall p | Under(Child(src, src[|dst|]), p) ensures Same(f, h, p) {
        SiblingAt(src, src[|dst|], n, p);
        assert p[|dst|] == src[|dst|];
        StepsFrame(g, h, c, d, p);
      }
    }
  }

  lemma Begin(c: Chance, f: FS, src: Path, dst: Path, policy: Policy, auto: bool)
    requires WellFormed(f)
    ensures Moved(f, f, src, dst, policy) && Obeyed(f, f, src, dst, {}) && Within(src, Listing(f, src), {})
    ensures Steps(f.Keys, f, f, src, dst) && PolicyNow(policy, policy)
    ensures forall names, calm :: Lists(names, Listing(f, src)) ==>
              Underway(c, f, f, src, dst, policy, policy, names, 0, {}, {}, [], calm, auto)
    ensures ByConsent(f, f, src, dst, policy, [Unlisted(src)])
  {
    hide Moved, Untouched, DoneChildren, Obeyed, Within, MoveSafe, MovedSoFar, Depth, WellFormed, Lists, Listing, Steps,
         ByConsent;
    NothingByConsent(f, src, dst, policy, []);
    NothingByConsent(f, src, dst, policy, [Unlisted(src)]);
    MovedNothing(f, src, dst, policy);
    DoneNone(f, src, dst, policy);
    ObeyedNone(f, src, dst);
    NoSteps(f.Keys, f, src, dst);
    forall names, calm | Lists(names, Listing(f, src))
      ensures Underway(c, f, f, src, dst, policy, policy, names, 0, {}, {}, [], calm, auto)
    {
      MovedStart(c, f, src, dst, policy, names);
      assert names[0..] == names && Listing(f, src) - {} == Listing(f, src);
    }
  }

  /** The call for the next child is allowed, and its recursion is shorter. */
  lemma NextEntry(ch: Chance, f: FS, g: FS, src: Path, dst: Path, policy: Policy, now: Policy, names: seq<Name>, i: nat,
                  done: set<Name>, no: set<Path>, es: seq<Event>, calm: bool, auto: bool)
    requires i < |names| && Underway(ch, f, g, src, dst, policy, now, names, i, done, no, es, calm, auto)
    requires WellFormed(f) && IsDir(f, src) && IsDir(f, dst) && !Under(src, dst)
    ensures var c, d := Child(src, names[i]), Child(dst, names[i]);
      && WellFormed(g) && c != [] && Leaf(c) == names[i] && !Under(c, d)
      && (Under(d, c) ==> Under(dst, src) && Below(g, c) < Below(f, src))
      && (!Under(d, c) && !Under(dst, src) ==> |Subtree(g, c)| < |Subtree(f, src)|)
  {
    hide Moved, Untouched, DoneChildren, Obeyed, Within, MovedSoFar, Depth, Below, WellFormed, Lists, Listing, Steps,
         Subtree, MoveSafe, ByConsent, ForAll;
    NextName(names, i, Listing(f, src) - done);
    BeforeChild(f, g, src, dst, names[i], policy);
  }

  lemma EntryDone(ch: Chance, f: FS, g: FS, h: FS, src: Path, dst: Path, policy: Policy, now: Policy, now1: Policy,
                  names: seq<Name>, i: nat, done: set<Name>, no: set<Path>, more: set<Path>,
                  es: seq<Event>, es1: seq<Event>, was: bool, calm: bool, auto: bool)
    requires i < |names| && (calm ==> was)
    requires Underway(ch, f, g, src, dst, policy, now, names, i, done, no, es, was, auto)
    requires now1 == ReplaceAll ==> now == ReplaceAll || ForAll(es1)
    requires WellFormed(f) && IsDir(f, src) && IsDir(f, dst) && !Under(src, dst)
    requires WellFormed(h) && (|dst| <= |src| ==> Depth(h) <= Depth(g)) && PolicyNow(now, now1)
    requires var c, d := Child(src, names[i]), Child(dst, names[i]);
      && Steps(g.Keys, g, h, c, d)
      && (MoveSafe(g, c, d) ==>
            Moved(g, h, c, d, now) && Obeyed(g, h, c, d, more) && ByConsent(g, h, c, d, now, es1))
      && (MoveSafe(g, c, d) && calm && IsDir(g, dst) ==> Complete(g, h, c, d, now, more))
      && (auto ==>
            && more == PolicyRefuses(g, c, d, now) && policy != Ask && policy != SkipExisting
            && forall k: nat :: Moving(ch, g, c, d, now, k).Some? ==> h == Moving(ch, g, c, d, now, k).value)
    ensures Underway(ch, f, h, src, dst, policy, now1, names, i + 1, done + {names[i]}, no + more, es + es1, calm, auto)
  {
    hide Moved, Untouched, DoneChildren, Obeyed, Within, MovedSoFar, Depth, Below, WellFormed, Lists, Listing, Steps,
         Subtree, MoveSafe, Complete, Moving, ByConsent, ForAll;
    ForAllMore(es, es1);
    var n, todo := names[i], Listing(f, src) - done;
    NextName(names, i, todo);
    assert todo - {n} == Listing(f, src) - (done + {n});
    ChildTaken(f, g, h, src, dst, done, n);
    if MoveSafe(f, src, dst) {
      BeforeChild(f, g, src, dst, n, policy);
      AfterChild(f, g, h, src, dst, policy, now, done, todo - {n}, n, no, more);
      ChildByConsent(f, g, h, src, dst, n, policy, now, es, es1);
      if calm { DoneChild(f, g, h, src, dst, policy, now, done, n, no, more); }
    }
    if auto { MovedNextName(ch, f, g, h, src, dst, policy, names, i); }
  }

  /** The state in which the loop ends, for whatever reason. */
  lemma StopShort(c: Chance, f: FS, g: FS, src: Path, dst: Path, policy: Policy, now: Policy, names: seq<Name>, i: nat,
                  done: set<Name>, no: set<Path>, es: seq<Event>, calm: bool, auto: bool)
    requires i <= |names| && IsDir(f, src)
    requires Underway(c, f, g, src, dst, policy, now, names, i, done, no, es, calm, auto)
    ensures now == ReplaceAll ==> policy == ReplaceAll || ForAll(es)
    ensures WellFormed(g) && (|dst| <= |src| ==> Depth(g) <= Depth(f))
    ensures PolicyNow(policy, now) && Steps(f.Keys, f, g, src, dst)
    ensures MoveSafe(f, src, dst) ==>
      && Moved(f, g, src, dst, policy) && IsDir(g, src)
      && Obeyed(f, g, src, dst, no) && Within(src, Listing(f, src), no) && ByConsent(f, g, src, dst, policy, es)
      && (calm && i == |names| ==> DoneChildren(f, g, src, dst, policy, no, Listing(f, src)))
    ensures auto && i == |names| ==>
      && no == {}
      && forall k: nat :: MovingAll(c, f, src, dst, policy, names, k).Some? ==>
           g == MovingAll(c, f, src, dst, policy, names, k).value
  {
    hide Moved, Untouched, DoneChildren, Obeyed, Within, MovedSoFar, Depth, WellFormed, Lists, Listing, Steps, MoveSafe,
         ByConsent, ForAll;
    if i == |names| {
      ListsNext(names[i..], Listing(f, src) - done);
      forall n | n in Listing(f, src) ensures n in done {
        assert n in done || n in Listing(f, src) - done;
      }
      assert done == Listing(f, src);
      if auto { MovedEnd(c, f, g, src, dst, policy, names); }
    }
    if MoveSafe(f, src, dst) { WithinMore(src, done, Listing(f, src), no); }
  }

  /** The call for a child is allowed, and its recursion is shorter. */
  lemma BeforeChild(f: FS, g: FS, src: Path, dst: Path, n: Name, policy: Policy)
    requires WellFormed(f) && IsDir(f, src) && IsDir(f, dst) && !Under(src, dst) && n in Listing(f, src)
    requires |dst| <= |src| ==> Depth(g) <= Depth(f)
    requires MoveSafe(f, src, dst) ==>
      Moved(f, g, src, dst, policy) && Untouched(f, g, Child(src, n), Child(dst, n), src)
    ensures var c, d := Child(src, n), Child(dst, n);
      && c != [] && Leaf(c) == n && !Under(c, d)
      && (MoveSafe(f, src, dst) ==> MoveSafe(g, c, d) && IsDir(g, dst))
      && (Under(d, c) ==> Under(dst, src) && Below(g, c) < Below(f, src))
      && (!Under(d, c) && !Under(dst, src) ==> |Subtree(g, c)| < |Subtree(f, src)|)
      && (|dst| <= |src| ==> |d| <= |c|) && |dst| == |d| - 1
  {
    var c, d := Child(src, n), Child(dst, n);
    ApartOrOver(src, dst);
    if Over(src, dst) {
      OverChildren(src, dst, n);
      ListingSound(f, src, n);
      assert c in f.Keys;
    } else {
      ApartChildren(src, dst, n);
      SmallerSubtree(f, g, src, n);
    }
    if MoveSafe(f, src, dst) {
      SafeChild(f, g, src, dst, n);
      MergedDir(f, g, src, dst, policy);
    }
  }

  lemma AfterChild(f: FS, g: FS, h: FS, src: Path, dst: Path, policy: Policy, now: Policy, done: set<Name>,
                   todo: set<Name>, n: Name, no: set<Path>, more: set<Path>)
    requires WellFormed(f) && WellFormed(g) && MoveSafe(f, src, dst) && Same(f, g, src) && PolicyNow(policy, now)
    requires Moved(f, g, src, dst, policy) && Untouched(f, g, Child(src, n), Child(dst, n), src)
    requires n !in todo && n !in done
    requires forall m :: m in todo ==> Untouched(f, g, Child(src, m), Child(dst, m), src)
    requires Obeyed(f, g, src, dst, no) && Within(src, done, no)
    requires Moved(g, h, Child(src, n), Child(dst, n), now) && Obeyed(g, h, Child(src, n), Child(dst, n), more)
    ensures Moved(f, h, src, dst, policy) && Same(f, h, src)
    ensures forall m :: m in todo ==> Untouched(f, h, Child(src, m), Child(dst, m), src)
    ensures Obeyed(f, h, src, dst, no + more) && Within(src, done + {n}, no + more)
  {
    hide Moved, Untouched, Obeyed, Within, MoveSafe, WellFormed;
    MovedChild(f, g, h, src, dst, n, policy, now);
    UntouchedSiblings(f, g, h, src, dst, todo, n, now);
    ObeyedChild(f, g, h, src, dst, done, n, no, more, now);
  }
}
