/** What the copy and move engines of action.c promise their users, drawn from what every run
    of them has been proved to do. */
module ActionResults {
  import opened FileTree
  import opened ActionWorld
  import opened ActionConflict
  import opened ActionSteps
  import Copy = ActionCopy
  import Move = ActionMove

  // ----- copying

  /** Whatever the answers and failures, a copy leaves its source alone, keeps every entry of
      the destination that the source does not name, and never removes a directory that has
      something in it. */
  lemma CopyHarmless(f: FS, g: FS, src: Path, dst: Path, declined: set<Path>, broken: set<Path>)
    requires Copy.CopySafe(f, src, dst) && Copy.Overlay(f, g, src, dst, declined, broken)
    ensures forall p :: Under(src, p) ==> Same(f, g, p)
    ensures forall q :: Under(dst, q) && Rebase(q, dst, src) !in f ==> Same(f, g, q)
    ensures forall q :: IsDir(f, q) && Listing(f, q) != {} ==> IsDir(g, q)
  {
    forall p | Under(src, p) ensures Same(f, g, p) {
      Copy.OverlaySource(f, g, src, dst, declined, broken, p);
    }
    forall q | Under(dst, q)
      ensures Rebase(q, dst, src) !in f ==> Same(f, g, q)
      ensures IsDir(f, q) && Listing(f, q) != {} ==> IsDir(g, q)
    {
      var p := Rebase(q, dst, src);
      assert Copy.CopyOk(f, g, p, Rebase(p, src, dst), declined, broken);
    }
  }

  /** Something at or above `p` was refused, or is blocked by what stands at the
      destination. */
  ghost predicate Skipped(f: FS, src: Path, dst: Path, policy: Policy, no: set<Path>, p: Path) {
    exists x :: (x in no || Copy.BlockedAt(f, src, dst, policy, x)) && Under(x, p)
  }

  /** Without failures the result is a function of the file system and of what was refused:
      an entry that is skipped leaves its counterpart as it was, a directory is merged into a
      directory, and everything else is copied. */
  lemma CopyDetermined(f: FS, g: FS, src: Path, dst: Path, policy: Policy, declined: set<Path>, no: set<Path>, p: Path)
    requires WellFormed(f) && Copy.Overlay(f, g, src, dst, declined, {}) && no <= declined
    requires Copy.Decided(f, src, dst, policy, Listing(f, src), declined, no)
    requires p in f && Under(src, p)
    ensures var q := Rebase(p, src, dst);
      if Skipped(f, src, dst, policy, no, p) then Same(f, g, q)
      else q in g && if IsDir(f, p) && IsDir(f, q) then g[q] == f[q] else Copy.CopyOf(g[q], f[p])
  {
    assert Copy.CopyOk(f, g, p, Rebase(p, src, dst), declined, {});
    if Copy.Stopped(declined, p) {
      var x :| x in declined && Under(x, p);
      assert x in no || Copy.BlockedAt(f, src, dst, policy, x);
    } else if Skipped(f, src, dst, policy, no, p) {
      var x :| (x in no || Copy.BlockedAt(f, src, dst, policy, x)) && Under(x, p);
      BlockedStops(f, src, dst, policy, declined, no, p, x);
    }
  }

  lemma BlockedStops(f: FS, src: Path, dst: Path, policy: Policy, declined: set<Path>, no: set<Path>, p: Path, x: Path)
    requires WellFormed(f) && no <= declined && Copy.Decided(f, src, dst, policy, Listing(f, src), declined, no)
    requires (x in no || Copy.BlockedAt(f, src, dst, policy, x)) && Under(x, p)
    ensures Copy.Stopped(declined, p)
  {
    if x in no {
      assert x in declined;
    } else {
      if x != src { ListingComplete(f, src, x); }
      assert Copy.Stopped(declined, x);
      var y :| y in declined && Under(y, x);
      UnderTrans(y, x, p);
    }
  }

  /** In every run, whatever is answered and whatever fails, an entry is copied or merged unless
      something accounts for its absence: the run stopped at it or at a directory it is in, for
      one of the causes, or it could not be created. */
  lemma CopiedUnless(f: FS, g: FS, src: Path, dst: Path, policy: Policy, declined: set<Path>, broken: set<Path>,
                     es: seq<Event>, p: Path)
    requires Copy.Overlay(f, g, src, dst, declined, broken)
    requires Copy.Accounted(f, src, dst, policy, declined, broken, es)
    requires p in f && Under(src, p) && Uncreated(Rebase(p, src, dst)) !in es
    requires forall x :: Under(src, x) && Under(x, p) ==> !Copy.Cause(f, src, dst, policy, es, x)
    ensures var q := Rebase(p, src, dst);
      q in g && if IsDir(f, p) && IsDir(f, q) then g[q] == f[q] else Copy.CopyOf(g[q], f[p])
  {
    hide Copy.Cause;
    assert Copy.CopyOk(f, g, p, Rebase(p, src, dst), declined, broken);
    assert !Copy.Stopped(declined, p);
  }

  /** The order in which the directories are listed makes no difference: two runs without
      failures that were refused the same entries end alike (the times of copied links
      apart). */
  lemma CopyOrderFree(f: FS, g: FS, h: FS, src: Path, dst: Path, policy: Policy,
                      declined: set<Path>, declined': set<Path>, no: set<Path>)
    requires WellFormed(f) && no <= declined && no <= declined'
    requires Copy.Overlay(f, g, src, dst, declined, {}) && Copy.Overlay(f, h, src, dst, declined', {})
    requires Copy.Decided(f, src, dst, policy, Listing(f, src), declined, no)
    requires Copy.Decided(f, src, dst, policy, Listing(f, src), declined', no)
    ensures forall q :: q in g <==> q in h
    ensures forall q :: q in g ==> Copy.CopyOf(g[q], h[q]) || Copy.CopyOf(h[q], g[q])
  {
    forall q
      ensures q in g <==> q in h
      ensures q in g ==> Copy.CopyOf(g[q], h[q]) || Copy.CopyOf(h[q], g[q])
    {
      if Under(dst, q) {
        var p := Rebase(q, dst, src);
        assert Copy.CopyOk(f, g, p, Rebase(p, src, dst), declined, {});
        assert Copy.CopyOk(f, h, p, Rebase(p, src, dst), declined', {});
        if p in f {
          CopyDetermined(f, g, src, dst, policy, declined, no, p);
          CopyDetermined(f, h, src, dst, policy, declined', no, p);
        }
      } else {
        assert Same(f, g, q) && Same(f, h, q);
      }
    }
  }

  // ----- moving

  /** Whatever the answers and failures, every file or link of the source is afterwards, as it
      was, at its source or at its destination; it is never at both unless its counterpart was
      there before; and what the source does not name is as it was, everywhere. */
  lemma MoveConserves(f: FS, g: FS, src: Path, dst: Path, policy: Policy, p: Path)
    requires Move.MoveSafe(f, src, dst) && Move.Moved(f, g, src, dst, policy)
    ensures var q := if Under(src, p) then Rebase(p, src, dst) else p;
      (p in f && Under(src, p) && !IsDir(f, p) ==>
        && (p in g || q in g)
        && (p in g ==> g[p] == f[p] && (q in g ==> q in f && g[q] == f[q]))
        && (p !in g ==> g[q] == f[p]))
    ensures !Under(src, p) && (Under(dst, p) ==> Rebase(p, dst, src) !in f) ==> Same(f, g, p)
  {
  }

  /** When nothing fails, nothing is refused and nothing is blocked, the source is gone and the
      destination is the source laid over what was there. */
  lemma MoveFinishes(f: FS, g: FS, src: Path, dst: Path, policy: Policy, p: Path)
    requires Move.Moved(f, g, src, dst, policy) && Move.Complete(f, g, src, dst, policy, {})
    requires forall x :: !Move.HeldAt(f, src, dst, policy, {}, x)
    requires Under(src, p)
    ensures p !in g
    ensures p in f ==> var q := Rebase(p, src, dst);
      q in g && g[q] == if IsDir(f, p) && IsDir(f, q) then f[q] else f[p]
  {
  }

  /** The law for single files, whatever the destination: the files of a move that is safe are
      kept, but for one whose counterpart is the source itself, which is blocked. */
  lemma SafeFilesKept(f: FS, src: Path, dst: Path, p: Path)
    requires WellFormed(f) && Move.MoveSafe(f, src, dst) && Under(src, p) && p in f && !IsDir(f, p)
    ensures if Under(src, Rebase(p, src, dst)) then Over(src, dst) && p == Again(src, dst) && Full(f, p, src)
            else Alone(f.Keys, f, src, dst, p)
  {
    if Under(src, Rebase(p, src, dst)) {
      Move.InSource(f, src, dst, p);
      if Apart(src, dst) { ApartAt(src, dst, Rebase(p, src, dst)); }
      OverCounterpart(src, dst, p);
    } else {
      forall r | r in f ensures !Lands(f.Keys, src, dst, r, p) {
        if Lands(f.Keys, src, dst, r, p) { LandsFromAgain(f, src, dst, r, p); }
      }
    }
  }

  /** What can come to stand at a file of the source is below the path that has the source for
      its counterpart. */
  lemma LandsFromAgain(f: FS, src: Path, dst: Path, r: Path, p: Path)
    requires WellFormed(f) && !Under(src, dst) && r in f && Lands(f.Keys, src, dst, r, p)
    requires Under(src, p) && p in f && !IsDir(f, p)
    ensures Over(src, dst) && IsDir(f, Again(src, dst))
  {
    hide Lands;
    LandsOnce(f.Keys, src, dst, r, p);
    var q := Rebase(r, src, dst);
    ApartOrOver(src, dst);
    if Apart(src, dst) { ApartAt(src, dst, p); }
    OverCounterpart(src, dst, r);
    Ancestors(f, Again(src, dst), r);
    if r == Again(src, dst) {
      SourceLandsOutside(f.Keys, src, dst, p);
      assert p == src;
      Ancestors(f, src, r);
    }
  }

  lemma LandsOnce(roots: set<Path>, src: Path, dst: Path, r: Path, p: Path)
    requires Lands(roots, src, dst, r, p)
    ensures Under(src, r)
    ensures var q := Rebase(r, src, dst); q == p || (Over(src, dst) && Under(src, q) && Lands(roots, src, dst, q, p))
  {
  }

  lemma SourceLandsOutside(roots: set<Path>, src: Path, dst: Path, p: Path)
    requires Over(src, dst) && Under(src, p)
    ensures !Lands(roots, src, dst, src, p)
  {
    assert Rebase(src, src, dst) == dst;
  }
}
