/** do_copy2 of action.c: what any run of it makes of the destination is an overlay of the
    source on what was there. */
module ActionCopy {
  import opened Basics
  import opened FileTree
  import opened ActionWorld
  import opened ActionConsent
  import opened ActionConflict
  import opened ActionAuto

  /** The run stopped at `p` or above it: a skip, a refusal, a failure, or an early end. */
  ghost predicate Stopped(declined: set<Path>, p: Path) {
    exists x :: x in declined && Under(x, p)
  }

  /** A copy of a node; the time of a copied link is not kept. */
  predicate CopyOf(copy: Node, node: Node) {
    copy.kind == node.kind && (copy.mtime == node.mtime || node.kind.Link?)
  }

  /** One entry of the overlay.  A broken entry is one whose creation failed: nothing is
      there, or (for a file) an unfinished file. */
  ghost predicate CopyOk(f: FS, g: FS, p: Path, q: Path, declined: set<Path>, broken: set<Path>) {
    if p !in f || Stopped(declined, p) then Same(f, g, q)
    else if p in broken then
      !Full(f, p, q) && !(IsDir(f, p) && IsDir(f, q)) && (q in g ==> g[q].kind.File? && f[p].kind.File?)
    else !Full(f, p, q) && q in g && if IsDir(f, p) && IsDir(f, q) then g[q] == f[q] else CopyOf(g[q], f[p])
  }

  /** `g` is `f` with `src` laid over `dst`, except where the run stopped or broke. */
  ghost predicate Overlay(f: FS, g: FS, src: Path, dst: Path, declined: set<Path>, broken: set<Path>) {
    && (forall q :: !Under(dst, q) ==> Same(f, g, q))
    && (forall p :: Under(src, p) ==> CopyOk(f, g, p, Rebase(p, src, dst), declined, broken))
  }

  function Kids(dir: Path, names: set<Name>): set<Path> {
    set n | n in names :: Child(dir, n)
  }

  /** What a destination that contains the source would put into the source is no more than
      directories onto directories, and onto directories that do not give way. */
  ghost predicate NothingToAdd(f: FS, src: Path, dst: Path) {
    forall p :: p in f && Under(src, p) && Under(src, Rebase(p, src, dst)) ==>
      var q := Rebase(p, src, dst); IsDir(f, q) && (IsDir(f, p) || Listing(f, q) != {})
  }

  /** When a copy is safe. */
  ghost predicate CopySafe(f: FS, src: Path, dst: Path) {
    Apart(src, dst) || (Over(src, dst) && NothingToAdd(f, src, dst))
  }

  lemma SafeChild(f: FS, g: FS, src: Path, dst: Path, n: Name)
    requires CopySafe(f, src, dst) && forall p :: Under(src, p) ==> Same(f, g, p)
    ensures CopySafe(g, Child(src, n), Child(dst, n))
  {
    var c, d := Child(src, n), Child(dst, n);
    if Apart(src, dst) {
      ApartChildren(src, dst, n);
    } else {
      OverChildren(src, dst, n);
      forall p | p in g && Under(c, p) && Under(c, Rebase(p, c, d))
        ensures var q := Rebase(p, c, d); IsDir(g, q) && (IsDir(g, p) || Listing(g, q) != {})
      {
        var q := Rebase(p, c, d);
        UnderTrans(src, c, p);
        UnderTrans(src, c, q);
        RebaseUnder(src, dst, n, p);
        ListingSame(f, g, src, q);
      }
    }
  }

  lemma StopAt(f: FS, src: Path, dst: Path)
    ensures Overlay(f, f, src, dst, {src}, {})
  {
  }

  /** A file, or a directory none of whose contents has been copied yet. */
  lemma CopyTop(f: FS, f1: FS, g: FS, src: Path, dst: Path, policy: Policy)
    requires WellFormed(f) && WellFormed(f1) && src in f
    requires if IsDir(f, src) && IsDir(f, dst) then f1 == f && g == f
             else Cleared(f, f1, src, dst, policy) && exists node :: CopyOf(node, f[src]) && g == f1[dst := node]
    requires !Full(f, src, dst)
    ensures Overlay(f, g, src, dst, Kids(src, Listing(f, src)), {})
  {
    assert Rebase(src, src, dst) == dst;
    assert !Stopped(Kids(src, Listing(f, src)), src);
    forall p | Under(src, p)
      ensures CopyOk(f, g, p, Rebase(p, src, dst), Kids(src, Listing(f, src)), {})
    {
      if p != src {
        if p in f { KidsStop(f, src, p); }
        BelowCleared(f, f1, src, dst, policy, p);
      }
    }
  }

  lemma KidsStop(f: FS, src: Path, p: Path)
    requires WellFormed(f) && p in f && Under(src, p) && p != src
    ensures Stopped(Kids(src, Listing(f, src)), p)
  {
    ListingComplete(f, src, p);
    UnderChild(src, p);
    assert Child(src, p[|src|]) in Kids(src, Listing(f, src));
  }

  /** Below the top, the destination is as it was. */
  lemma BelowCleared(f: FS, f1: FS, src: Path, dst: Path, policy: Policy, p: Path)
    requires WellFormed(f1) && Under(src, p) && p != src
    requires f1 == f || Cleared(f, f1, src, dst, policy)
    ensures Rebase(p, src, dst) != dst && Same(f, f1, Rebase(p, src, dst))
  {
  }

  /** Creating the top entry failed, whatever may be left of it. */
  lemma BrokenTop(f: FS, f1: FS, g: FS, src: Path, dst: Path, policy: Policy)
    requires WellFormed(f) && WellFormed(f1) && Cleared(f, f1, src, dst, policy)
    requires !Full(f, src, dst)
    requires src in f1 && Left(f1, g, src, dst)
    ensures Overlay(f, g, src, dst, Kids(src, Listing(f, src)), {src})
  {
    assert Rebase(src, src, dst) == dst;
    assert !Stopped(Kids(src, Listing(f, src)), src);
    forall p | Under(src, p)
      ensures CopyOk(f, g, p, Rebase(p, src, dst), Kids(src, Listing(f, src)), {src})
    {
      if p != src {
        if p in f { KidsStop(f, src, p); }
        BelowCleared(f, f1, src, dst, policy, p);
      }
    }
  }

  /** The source stays as it is. */
  lemma OverlaySource(f: FS, g: FS, src: Path, dst: Path, declined: set<Path>, broken: set<Path>, p: Path)
    requires CopySafe(f, src, dst) && Overlay(f, g, src, dst, declined, broken) && Under(src, p)
    ensures Same(f, g, p)
  {
    if Under(dst, p) {
      if Apart(src, dst) { ApartAt(src, dst, p); }
      var o := Rebase(p, dst, src);
      assert Rebase(o, src, dst) == p && CopyOk(f, g, o, Rebase(o, src, dst), declined, broken);
    }
  }

  lemma StoppedUnion(a: set<Path>, b: set<Path>, p: Path)
    ensures Stopped(a + b, p) <==> Stopped(a, p) || Stopped(b, p)
  {
  }

  /** The state of the copy of a directory: the children in `todo` are waiting. */
  ghost predicate Progress(f: FS, g: FS, src: Path, dst: Path, done: set<Name>, todo: set<Name>,
                           declined: set<Path>, broken: set<Path>) {
    && Overlay(f, g, src, dst, declined + Kids(src, todo), broken)
    && Within(src, done, declined) && Within(src, done, broken)
  }

  /** How far the copy of a directory has come.  As long as it is `calm`, nothing having failed
      and the parent being there, it stopped where it had to. */
  ghost predicate SoFar(f: FS, g: FS, src: Path, dst: Path, policy: Policy, done: set<Name>, todo: set<Name>,
                          declined: set<Path>, broken: set<Path>, no: set<Path>, calm: bool) {
    && Progress(f, g, src, dst, done, todo, declined, broken) && IsDir(g, dst) && no <= declined
    && (calm && Decided(f, src, dst, policy, {}, {}, {}) ==>
          broken == {} && Decided(f, src, dst, policy, done, declined, no))
  }

  lemma WaitingUntouched(f: FS, g: FS, src: Path, dst: Path, done: set<Name>, todo: set<Name>,
                         declined: set<Path>, broken: set<Path>, n: Name)
    requires CopySafe(f, src, dst) && Progress(f, g, src, dst, done, todo, declined, broken) && n in todo
    ensures forall p :: Under(Child(src, n), p) ==> Same(f, g, p)
    ensures forall q :: Under(Child(dst, n), q) ==> Same(f, g, q)
  {
    var all := declined + Kids(src, todo);
    forall p | Under(Child(src, n), p) ensures Same(f, g, p) {
      OverlaySource(f, g, src, dst, all, broken, p);
    }
    forall q | Under(Child(dst, n), q) ensures Same(f, g, q) {
      var p := Rebase(q, dst, src);
      RebaseUnder(dst, src, n, q);
      assert Child(src, n) in all && Under(Child(src, n), p);
      assert CopyOk(f, g, p, Rebase(p, src, dst), all, broken);
    }
  }

  lemma ProgressChild(f: FS, g: FS, h: FS, src: Path, dst: Path, done: set<Name>, todo: set<Name>, n: Name,
                      declined: set<Path>, broken: set<Path>, declined1: set<Path>, broken1: set<Path>)
    requires CopySafe(f, src, dst) && n !in todo && n !in done
    requires Progress(f, g, src, dst, done, todo + {n}, declined, broken)
    requires Overlay(g, h, Child(src, n), Child(dst, n), declined1, broken1)
    requires Within(src, {n}, declined1) && Within(src, {n}, broken1)
    ensures Progress(f, h, src, dst, done + {n}, todo, declined + declined1, broken + broken1)
  {
    var c, d := Child(src, n), Child(dst, n);
    var was, now := declined + Kids(src, todo + {n}), declined + declined1 + Kids(src, todo);
    WaitingUntouched(f, g, src, dst, done, todo + {n}, declined, broken, n);
    forall q | !Under(dst, q) ensures Same(f, h, q) {
      assert !Under(d, q);
    }
    forall p | Under(src, p)
      ensures CopyOk(f, h, p, Rebase(p, src, dst), now, broken + broken1)
    {
      var q := Rebase(p, src, dst);
      RebaseUnder(src, dst, n, p);
      assert CopyOk(f, g, p, q, was, broken);
      StopsOfChild(src, done, todo, n, declined, declined1, p);
      if Under(c, p) {
        assert CopyOk(g, h, p, Rebase(p, c, d), declined1, broken1);
        ListingSame(f, g, d, q);
        assert p !in broken by { assert p[|src|] == n; }
      } else {
        assert Same(g, h, q);
        assert p !in broken1 by { if p in broken1 { UnderChild(src, p); } }
      }
    }
  }

  lemma StopsOfChild(src: Path, done: set<Name>, todo: set<Name>, n: Name,
                     declined: set<Path>, declined1: set<Path>, p: Path)
    requires n !in todo && n !in done && Within(src, done, declined) && Within(src, {n}, declined1) && Under(src, p)
    ensures Under(Child(src, n), p) ==>
              (Stopped(declined + declined1 + Kids(src, todo), p) <==> Stopped(declined1, p))
    ensures !Under(Child(src, n), p) ==>
              (Stopped(declined + declined1 + Kids(src, todo), p) <==> Stopped(declined + Kids(src, todo + {n}), p))
  {
    hide Stopped, Kids, Within;
    StoppedUnion(declined + declined1, Kids(src, todo), p);
    StoppedUnion(declined, declined1, p);
    StoppedUnion(declined, Kids(src, todo + {n}), p);
    if Stopped(declined, p) { StoppedWithin(src, done, declined, p); }
    if Stopped(declined1, p) { StoppedWithin(src, {n}, declined1, p); }
    StoppedByKids(src, todo, p);
    StoppedByKids(src, todo + {n}, p);
  }

  lemma StoppedWithin(src: Path, names: set<Name>, xs: set<Path>, p: Path)
    requires Within(src, names, xs) && Under(src, p) && Stopped(xs, p)
    ensures p != src && p[|src|] in names && Under(Child(src, p[|src|]), p)
  {
    UnderChild(src, p);
  }

  lemma StoppedByKids(src: Path, names: set<Name>, p: Path)
    requires Under(src, p)
    ensures Stopped(Kids(src, names), p) <==> p != src && p[|src|] in names
  {
    if p != src && p[|src|] in names {
      UnderChild(src, p);
      assert Child(src, p[|src|]) in Kids(src, names);
    }
  }

  // ----- where the run stops when nothing fails

  ghost predicate BlockedAt(f: FS, src: Path, dst: Path, policy: Policy, x: Path) {
    Under(src, x) && Blocked(f, x, Rebase(x, src, dst), policy)
  }

  /** Among `src` itself and its children in `done`, the run stopped at refused and blocked
      entries and at no others. */
  ghost predicate Decided(f: FS, src: Path, dst: Path, policy: Policy, done: set<Name>,
                          declined: set<Path>, no: set<Path>) {
    && (forall x :: x in declined ==> x in no || BlockedAt(f, src, dst, policy, x))
    && (forall p :: p in f && Under(src, p) && (p == src || p[|src|] in done) && !Stopped(declined, p)
          ==> !BlockedAt(f, src, dst, policy, p))
  }

  lemma DecidedChild(f: FS, g: FS, src: Path, dst: Path, policy: Policy, now: Policy, done: set<Name>, n: Name,
                     declined: set<Path>, no: set<Path>, declined1: set<Path>, no1: set<Path>)
    requires WellFormed(g) && PolicyNow(policy, now) && Decided(f, src, dst, policy, done, declined, no)
    requires Decided(g, Child(src, n), Child(dst, n), now, Listing(g, Child(src, n)), declined1, no1)
    requires forall p :: Under(Child(src, n), p) ==> Same(f, g, p)
    requires forall q :: Under(Child(dst, n), q) ==> Same(f, g, q)
    ensures Decided(f, src, dst, policy, done + {n}, declined + declined1, no + no1)
  {
    var c, d := Child(src, n), Child(dst, n);
    forall p | Under(c, p)
      ensures BlockedAt(g, c, d, now, p) <==> BlockedAt(f, src, dst, policy, p)
    {
      RebaseUnder(src, dst, n, p);
      ListingSame(f, g, d, Rebase(p, c, d));
    }
    forall p | p in f && Under(src, p) && (p == src || p[|src|] in done + {n}) && !Stopped(declined + declined1, p)
      ensures !BlockedAt(f, src, dst, policy, p)
    {
      StoppedUnion(declined, declined1, p);
      if p != src && p[|src|] == n {
        UnderChild(src, p);
        if p != c { ListingComplete(g, c, p); }
      }
    }
  }

  lemma DecidedStop(f: FS, src: Path, dst: Path, policy: Policy, no: set<Path>)
    requires src in no || Blocked(f, src, dst, policy)
    ensures Decided(f, src, dst, policy, Listing(f, src), {src}, no)
  {
    assert Rebase(src, src, dst) == dst && src in {src};
    forall p | Under(src, p) ensures Stopped({src}, p) {
      assert src in {src};
    }
  }

  lemma DecidedStart(f: FS, src: Path, dst: Path, policy: Policy)
    ensures !Blocked(f, src, dst, policy) ==> Decided(f, src, dst, policy, {}, {}, {})
  {
    assert Rebase(src, src, dst) == dst;
  }

  // ----- the start of a directory

  lemma NotFull(f: FS, f1: FS, src: Path, dst: Path, policy: Policy, merge: bool)
    requires WellFormed(f1) && if merge then IsDir(f, src) else Cleared(f, f1, src, dst, policy)
    ensures !Full(f, src, dst)
  {
    if !merge { ClearedNotFull(f, f1, src, dst, policy); }
  }

  lemma ProgressStart(f: FS, g: FS, src: Path, dst: Path)
    requires CopySafe(f, src, dst) && Overlay(f, g, src, dst, Kids(src, Listing(f, src)), {})
    requires src in f
    ensures Progress(f, g, src, dst, {}, Listing(f, src), {}, {})
    ensures IsDir(f, src) ==> IsDir(g, dst)
    ensures IsDir(g, src) == IsDir(f, src)
  {
    assert {} + Kids(src, Listing(f, src)) == Kids(src, Listing(f, src));
    OverlaySource(f, g, src, dst, Kids(src, Listing(f, src)), {}, src);
    assert Rebase(src, src, dst) == dst;
    assert !Stopped(Kids(src, Listing(f, src)), src);
    assert CopyOk(f, g, src, dst, Kids(src, Listing(f, src)), {});
  }

  lemma NoContents(f: FS, g: FS, src: Path, dst: Path)
    requires WellFormed(f) && src in f && !IsDir(f, src) && Progress(f, g, src, dst, {}, Listing(f, src), {}, {})
    ensures Listing(f, src) == {} && Overlay(f, g, src, dst, {}, {})
  {
    if n :| n in Listing(f, src) {
      ListingSound(f, src, n);
    }
    assert {} + Kids(src, Listing(f, src)) == {};
  }

  /** The source is as it was. */
  lemma ProgressSource(f: FS, g: FS, src: Path, dst: Path, done: set<Name>, todo: set<Name>,
                       declined: set<Path>, broken: set<Path>)
    requires CopySafe(f, src, dst) && Progress(f, g, src, dst, done, todo, declined, broken)
    ensures forall p :: Under(src, p) ==> Same(f, g, p)
    ensures Listing(g, src) == Listing(f, src) && Subtree(g, src) == Subtree(f, src)
  {
    forall p | Under(src, p) ensures Same(f, g, p) {
      OverlaySource(f, g, src, dst, declined + Kids(src, todo), broken, p);
    }
    ListingSame(f, g, src, src);
  }

  lemma ProgressEnd(f: FS, g: FS, src: Path, dst: Path, done: set<Name>, todo: set<Name>,
                    declined: set<Path>, broken: set<Path>)
    requires Progress(f, g, src, dst, done, todo, declined, broken)
    ensures Overlay(f, g, src, dst, declined + Kids(src, todo), broken)
    ensures AllUnder(src, declined + Kids(src, todo)) && AllUnder(src, broken) && src !in declined + Kids(src, todo)
    ensures todo == {} ==> declined + Kids(src, todo) == declined
  {
  }

  // ----- what accounts for it

  /** What makes the run stop at `x`: it is not there; it is blocked by what stands at the
      destination; it is refused, or cannot be read; what stands at the destination cannot be
      removed; the directory it is in cannot be listed or has not been made; or the parent dies
      at it or before its turn. */
  ghost predicate Cause(f: FS, src: Path, dst: Path, policy: Policy, es: seq<Event>, x: Path)
    requires Under(src, x)
  {
    || x !in f || BlockedAt(f, src, dst, policy, x)
    || Refused(x) in es || Unread(x) in es || Denied(Rebase(x, src, dst)) in es
    || (x != src && (Unlisted(Parent(x)) in es || Uncreated(Parent(Rebase(x, src, dst))) in es))
    || Died(x) in es || (Dead(es) && Reached(x) !in es)
  }

  /** There is a cause for everything that was left out, and what broke could not be made. */
  ghost predicate Accounted(f: FS, src: Path, dst: Path, policy: Policy, declined: set<Path>, broken: set<Path>,
                            es: seq<Event>) {
    && (forall x :: x in declined ==> Under(src, x) && Cause(f, src, dst, policy, es, x))
    && (forall x :: x in broken ==> Under(src, x) && Uncreated(Rebase(x, src, dst)) in es)
  }

  /** The procedure has come to nothing but `root` and what is below. */
  ghost predicate ReachedUnder(root: Path, es: seq<Event>) {
    forall e :: e in es && (e.Reached? || e.Goes()) ==> Under(root, e.path)
  }

  ghost predicate ReachedBelow(root: Path, es: seq<Event>) {
    forall e :: e in es && (e.Reached? || e.Goes()) ==> Under(root, e.path) && e.path != root
  }

  ghost predicate ReachedWithin(root: Path, names: set<Name>, es: seq<Event>) {
    forall e :: e in es && (e.Reached? || e.Goes()) ==> Under(root, e.path) && e.path != root && e.path[|root|] in names
  }

  lemma StopCause(f: FS, src: Path, dst: Path, policy: Policy, es: seq<Event>)
    requires Stopping(f, src, dst, policy, es) && OneAsked(f, src, dst, policy, es)
    requires forall x :: Reached(x) in es ==> x == src
    ensures Accounted(f, src, dst, policy, {src}, {}, es) && ReachedUnder(src, es)
  {
    assert Rebase(src, src, dst) == dst;
  }

  lemma BrokenCause(f: FS, src: Path, dst: Path, policy: Policy, top: seq<Event>)
    requires Opening(src, top)
    ensures var es := top + [Uncreated(dst)];
      && Accounted(f, src, dst, policy, Kids(src, Listing(f, src)), {src}, es)
      && !Dead(es) && ReachedUnder(src, es)
  {
    var es := top + [Uncreated(dst)];
    assert Rebase(src, src, dst) == dst && forall e :: e in es <==> e in top || e == Uncreated(dst);
    forall x | x in Kids(src, Listing(f, src)) ensures Under(src, x) && Cause(f, src, dst, policy, es, x) {
      assert Parent(Rebase(x, src, dst)) == dst && x != src;
    }
  }

  lemma UnlistedCause(f: FS, src: Path, dst: Path, policy: Policy, names: set<Name>)
    ensures var es := [Unlisted(src)];
      Accounted(f, src, dst, policy, Kids(src, names), {}, es) && !Dead(es) && ReachedBelow(src, es)
  {
    var es := [Unlisted(src)];
    assert es[0] in es;
    forall x | x in Kids(src, names) ensures Under(src, x) && Cause(f, src, dst, policy, es, x) {
      assert Parent(x) == src && x != src;
    }
  }

  lemma NoCause(f: FS, src: Path, dst: Path, policy: Policy)
    ensures forall es :: Accounted(f, src, dst, policy, {}, {}, es)
    ensures ReachedWithin(src, {}, []) && !Dead([])
    ensures forall es :: Opening(src, es) ==> ReachedUnder(src, es) && !Dead(es)
  {
  }

  /** The directory itself has been reached before its contents. */
  lemma AfterReached(f: FS, src: Path, dst: Path, policy: Policy, declined: set<Path>, broken: set<Path>,
                     top: seq<Event>, es: seq<Event>)
    requires ReachedBelow(src, es) && Opening(src, top)
    ensures var all := top + es;
      && (Dead(all) <==> Dead(es)) && ReachedUnder(src, all)
      && (Accounted(f, src, dst, policy, declined, broken, es) && src !in declined ==>
            Accounted(f, src, dst, policy, declined, broken, all))
  {
    var all := top + es;
    assert forall e :: e in all <==> e in top || e in es;
    assert Dead(es) ==> exists p :: Died(p) in es && Died(p) in all;
  }

  lemma EventsMore(src: Path, done: set<Name>, n: Name, es: seq<Event>, more: seq<Event>)
    requires ReachedWithin(src, done, es) && ReachedUnder(Child(src, n), more) && !Dead(es)
    ensures ReachedWithin(src, done + {n}, es + more) && (Dead(es + more) <==> Dead(more))
  {
    assert forall e :: e in es + more <==> e in es || e in more;
    forall e | e in more && (e.Reached? || e.Goes()) ensures Under(src, e.path) && e.path != src && e.path[|src|] == n {
      UnderTrans(src, Child(src, n), e.path);
    }
  }

  lemma AccountedChild(f: FS, g: FS, src: Path, dst: Path, policy: Policy, now: Policy, done: set<Name>, n: Name,
                       declined: set<Path>, broken: set<Path>, es: seq<Event>,
                       declined1: set<Path>, broken1: set<Path>, more: seq<Event>)
    requires WellFormed(g) && PolicyNow(policy, now) && Accounted(f, src, dst, policy, declined, broken, es)
    requires Accounted(g, Child(src, n), Child(dst, n), now, declined1, broken1, more)
    requires ReachedWithin(src, done, es) && n !in done && !Dead(es)
    requires forall p :: Under(Child(src, n), p) ==> Same(f, g, p)
    requires forall q :: Under(Child(dst, n), q) ==> Same(f, g, q)
    ensures Accounted(f, src, dst, policy, declined + declined1, broken + broken1, es + more)
  {
    hide Cause;
    var c, d := Child(src, n), Child(dst, n);
    forall x | x in declined + declined1 ensures Under(src, x) && Cause(f, src, dst, policy, es + more, x) {
      if x in declined { CauseMore(f, src, dst, policy, es, more, x); }
      if x in declined1 {
        UnderTrans(src, c, x);
        CauseChild(f, g, src, dst, policy, now, done, n, es, more, x);
      }
    }
    forall x | x in broken + broken1 ensures Under(src, x) && Uncreated(Rebase(x, src, dst)) in es + more {
      if x in broken1 {
        UnderTrans(src, c, x);
        RebaseUnder(src, dst, n, x);
      }
    }
  }

  lemma CauseMore(f: FS, src: Path, dst: Path, policy: Policy, es: seq<Event>, more: seq<Event>, x: Path)
    requires Under(src, x) && Cause(f, src, dst, policy, es, x) && !Dead(es)
    ensures Cause(f, src, dst, policy, es + more, x)
  {
    assert forall e :: e in es ==> e in es + more;
  }

  lemma CauseChild(f: FS, g: FS, src: Path, dst: Path, policy: Policy, now: Policy, done: set<Name>, n: Name,
                   es: seq<Event>, more: seq<Event>, x: Path)
    requires WellFormed(g) && PolicyNow(policy, now) && Under(Child(src, n), x) && Under(src, x)
    requires Cause(g, Child(src, n), Child(dst, n), now, more, x)
    requires ReachedWithin(src, done, es) && n !in done
    requires forall p :: Under(Child(src, n), p) ==> Same(f, g, p)
    requires forall q :: Under(Child(dst, n), q) ==> Same(f, g, q)
    ensures Cause(f, src, dst, policy, es + more, x)
  {
    RebaseUnder(src, dst, n, x);
    BlockedHere(f, g, src, dst, policy, now, n, x);
    hide BlockedAt;
    assert forall e :: e in more ==> e in es + more;
    assert x != src && Same(f, g, x);
    if Dead(more) && Reached(x) !in more {
      var p :| Died(p) in more;
      assert Died(p) in es + more;
      assert x[|src|] == n && Reached(x) !in es;
    }
  }

  lemma BlockedHere(f: FS, g: FS, src: Path, dst: Path, policy: Policy, now: Policy, n: Name, x: Path)
    requires PolicyNow(policy, now) && Under(Child(src, n), x) && Under(src, x)
    requires forall p :: Under(Child(src, n), p) ==> Same(f, g, p)
    requires forall q :: Under(Child(dst, n), q) ==> Same(f, g, q)
    ensures BlockedAt(g, Child(src, n), Child(dst, n), now, x) <==> BlockedAt(f, src, dst, policy, x)
  {
    RebaseUnder(src, dst, n, x);
    ListingSame(f, g, Child(dst, n), Rebase(x, src, dst));
  }

  /** What waits when the parent dies is accounted for as well. */
  lemma AccountedRest(f: FS, src: Path, dst: Path, policy: Policy, done: set<Name>, todo: set<Name>,
                      declined: set<Path>, broken: set<Path>, es: seq<Event>)
    requires Accounted(f, src, dst, policy, declined, broken, es) && ReachedWithin(src, done, es) && done !! todo
    requires todo == {} || Dead(es)
    ensures Accounted(f, src, dst, policy, declined + Kids(src, todo), broken, es)
  {
    forall x | x in Kids(src, todo) ensures Under(src, x) && Cause(f, src, dst, policy, es, x) {
      assert x[|src|] in todo && Reached(x) !in es;
    }
  }

  // ----- consent

  /** Whatever has changed at the destination was gone on with by consent, the user having been
      asked where that is due. */
  ghost predicate ByConsent(f: FS, g: FS, src: Path, dst: Path, policy: Policy, es: seq<Event>) {
    Consented(f, g, src, dst, es) && Orderly(f, src, dst, policy, es)
  }

  ghost predicate Consented(f: FS, g: FS, src: Path, dst: Path, es: seq<Event>) {
    forall p :: Under(src, p) && !Same(f, g, Rebase(p, src, dst)) ==> p in f && Consents(es, p)
  }

  lemma NothingByConsent(f: FS, src: Path, dst: Path, policy: Policy, es: seq<Event>)
    requires OneAsked(f, src, dst, policy, es)
    ensures ByConsent(f, f, src, dst, policy, es)
  {
    OneOrderly(f, src, dst, policy, es);
  }

  /** The entry itself, whether that worked or not, and what happened then. */
  lemma TopByConsent(f: FS, g: FS, src: Path, dst: Path, policy: Policy, broken: set<Path>,
                     top: seq<Event>, more: seq<Event>)
    requires WellFormed(f) && src in f && OneAsked(f, src, dst, policy, top) && Consents(top, src)
    requires CopySafe(f, src, dst) ==> Overlay(f, g, src, dst, Kids(src, Listing(f, src)), broken)
    requires forall e :: e in more ==> !e.Goes()
    ensures CopySafe(f, src, dst) ==> ByConsent(f, g, src, dst, policy, top + more)
    ensures OneAsked(f, src, dst, policy, top + more)
  {
    hide AskedRightly, CopySafe, Overlay;
    ConsentsMore(top, more, src);
    assert OneAsked(f, src, dst, policy, top + more) by {
      assert forall e :: e in top + more <==> e in top || e in more;
    }
    OneOrderly(f, src, dst, policy, top + more);
    hide Consents, OneAsked, Orderly, WellFormed;
    if CopySafe(f, src, dst) {
      forall p | Under(src, p) && !Same(f, g, Rebase(p, src, dst)) ensures p == src {
        if p != src { OnlyTop(f, g, src, dst, broken, p); }
      }
    }
  }

  lemma OnlyTop(f: FS, g: FS, src: Path, dst: Path, broken: set<Path>, p: Path)
    requires WellFormed(f) && Overlay(f, g, src, dst, Kids(src, Listing(f, src)), broken) && Under(src, p) && p != src
    ensures Same(f, g, Rebase(p, src, dst))
  {
    assert CopyOk(f, g, p, Rebase(p, src, dst), Kids(src, Listing(f, src)), broken);
    if p in f { KidsStop(f, src, p); }
  }

  lemma MadeByConsent(f: FS, g: FS, src: Path, dst: Path, policy: Policy, top: seq<Event>)
    requires WellFormed(f) && src in f && OneAsked(f, src, dst, policy, top) && Consents(top, src)
    requires CopySafe(f, src, dst) ==> Progress(f, g, src, dst, {}, Listing(f, src), {}, {})
    ensures CopySafe(f, src, dst) ==> ByConsent(f, g, src, dst, policy, top)
  {
    hide CopySafe, Overlay, WellFormed, OneAsked, Consents, Progress, ByConsent;
    if CopySafe(f, src, dst) {
      ProgressEnd(f, g, src, dst, {}, Listing(f, src), {}, {});
      assert {} + Kids(src, Listing(f, src)) == Kids(src, Listing(f, src)) && top + [] == top;
      TopByConsent(f, g, src, dst, policy, {}, top, []);
    }
  }

  /** The contents of a directory, after the directory itself. */
  lemma ContentsByConsent(f: FS, g0: FS, g: FS, src: Path, dst: Path, policy: Policy, p0: Policy,
                          top: seq<Event>, es: seq<Event>)
    requires WellFormed(f) && CopySafe(f, src, dst) && Progress(f, g0, src, dst, {}, Listing(f, src), {}, {})
    requires ByConsent(f, g0, src, dst, policy, top) && ByConsent(g0, g, src, dst, p0, es) && ReachedBelow(src, es)
    requires PolicyNow(policy, p0) && (p0 == ReplaceAll ==> policy == ReplaceAll || ForAll(top))
    ensures ByConsent(f, g, src, dst, policy, top + es)
  {
    hide Orderly, Progress, CopySafe, WellFormed, Consents, PolicyNow, Same, ForAll;
    var all := top + es;
    ProgressSource(f, g0, src, dst, {}, Listing(f, src), {}, {});
    forall p | Under(src, p) && !Same(f, g, Rebase(p, src, dst)) ensures p in f && Consents(all, p) {
      var q := Rebase(p, src, dst);
      ConsentsMore(top, es, p);
      SameThrough(f, g0, g, q);
      assert Same(f, g0, p);
      SameThere(f, g0, p);
    }
    forall e | e in es && e.Weighed? && Under(src, e.path) && e.path in g0
      ensures Same(f, g0, e.path) && Same(f, g0, Rebase(e.path, src, dst))
    {
      ProgressEnd(f, g0, src, dst, {}, Listing(f, src), {}, {});
      assert {} + Kids(src, Listing(f, src)) == Kids(src, Listing(f, src));
      OnlyTop(f, g0, src, dst, {}, e.path);
    }
    OrderlyThen(f, g0, src, dst, src, dst, policy, p0, top, es);
  }

  lemma SameThrough(f: FS, g: FS, h: FS, q: Path)
    requires !Same(f, h, q)
    ensures !Same(f, g, q) || !Same(g, h, q)
  {
  }

  lemma SameThere(f: FS, g: FS, p: Path)
    requires Same(f, g, p)
    ensures p in f <==> p in g
  {
  }

  /** One more child. */
  lemma ChildByConsent(f: FS, g: FS, h: FS, src: Path, dst: Path, n: Name, policy: Policy, now: Policy,
                       es: seq<Event>, more: seq<Event>)
    requires ByConsent(f, g, src, dst, policy, es) && ByConsent(g, h, Child(src, n), Child(dst, n), now, more)
    requires PolicyNow(policy, now) && (now == ReplaceAll ==> policy == ReplaceAll || ForAll(es))
    requires forall p :: Under(Child(src, n), p) ==> Same(f, g, p)
    requires forall q :: Under(Child(dst, n), q) ==> Same(f, g, q)
    requires forall q :: !Under(Child(dst, n), q) ==> Same(g, h, q)
    requires ReachedUnder(Child(src, n), more)
    ensures ByConsent(f, h, src, dst, policy, es + more)
  {
    hide Orderly, Consents, PolicyNow, Same, ForAll;
    var c, d := Child(src, n), Child(dst, n);
    forall p | Under(src, p) && !Same(f, h, Rebase(p, src, dst)) ensures p in f && Consents(es + more, p) {
      RebaseUnder(src, dst, n, p);
      ConsentsMore(es, more, p);
      SameThrough(f, g, h, Rebase(p, src, dst));
      if Under(c, p) { SameThere(f, g, p); }
    }
    forall e | e in more && e.Weighed? && Under(c, e.path) && e.path in g
      ensures Under(src, e.path) && Rebase(e.path, src, dst) == Rebase(e.path, c, d)
      ensures Same(f, g, e.path) && Same(f, g, Rebase(e.path, c, d))
    {
      UnderTrans(src, c, e.path);
      RebaseUnder(src, dst, n, e.path);
    }
    OrderlyThen(f, g, src, dst, c, d, policy, now, es, more);
  }

  /** Untouched areas stay so. */
  lemma SameSince(f: FS, g0: FS, g: FS, c: Path)
    requires (forall p :: Under(c, p) ==> Same(f, g0, p)) && (forall p :: Under(c, p) ==> Same(f, g, p))
    ensures forall p :: Under(c, p) ==> Same(g0, g, p)
  {
  }

  // ----- the procedure

  /** Nothing fails, the creation of files and directories included. */
  ghost predicate Faultless(w: World) {
    !w.faults && forall p :: !w.chance.unwritable(p)
  }

  lemma TopUnder(f: FS, path: Path)
    ensures AllUnder(path, {}) && AllUnder(path, {path}) && AllUnder(path, Kids(path, Listing(f, path)))
  {
  }

  /** do_copy2, for any destination that is not the source or inside it. */
  method DoCopy2(w: World, path: Path, dest: Path)
    returns (ghost declined: set<Path>, ghost broken: set<Path>, ghost no: set<Path>, ghost es: seq<Event>)
    requires WellFormed(w.fs) && path != [] && !Under(path, w.MakeDestPath(path, dest)) && !w.exited
    modifies w
    ensures WellFormed(w.fs)
    ensures |dest| < |path| ==> Depth(w.fs) <= old(Depth(w.fs))
    ensures w.refused == old(w.refused) + no
    ensures PolicyNow(old(w.policy), w.policy)
    ensures old(w.actionLeaf) == None ==> w.actionLeaf == None
    ensures CopySafe(old(w.fs), path, old(w.MakeDestPath(path, dest))) ==>
              && Overlay(old(w.fs), w.fs, path, old(w.MakeDestPath(path, dest)), declined, broken)
              && AllUnder(path, declined) && AllUnder(path, broken) && no <= declined
    // What it stopped at or broke, in any run, is accounted for by what stands at the
    // destination or by what has happened there.
    ensures w.events == old(w.events) + es && (w.exited <==> Dead(es)) && ReachedUnder(path, es)
    // Nothing at the destination changes without consent, and the user is asked when that is due.
    ensures CopySafe(old(w.fs), path, old(w.MakeDestPath(path, dest))) ==>
              ByConsent(old(w.fs), w.fs, path, old(w.MakeDestPath(path, dest)), old(w.policy), es)
    ensures Heard(old(w.InputNow()), w.InputNow(), es)
    ensures w.policy == ReplaceAll ==> old(w.policy) == ReplaceAll || ForAll(es)
    ensures CopySafe(old(w.fs), path, old(w.MakeDestPath(path, dest))) ==>
              Accounted(old(w.fs), path, old(w.MakeDestPath(path, dest)), old(w.policy), declined, broken, es)
    // Unless something failed or the parent died, the run stopped at what was refused or
    // blocked and nowhere else.
    ensures CopySafe(old(w.fs), path, old(w.MakeDestPath(path, dest)))
            && Faultless(w) && !w.exited && IsDir(old(w.fs), dest) && path in old(w.fs) ==>
              && broken == {}
              && Decided(old(w.fs), path, old(w.MakeDestPath(path, dest)), old(w.policy),
                         Listing(old(w.fs), path), declined, no)
    // Left to a policy, the run is the one of `Copying`.
    ensures old(Automatic(w)) ==>
              && Automatic(w) && no == PolicyRefuses(old(w.fs), path, old(w.MakeDestPath(path, dest)), old(w.policy))
              && forall k: nat ::
                   var run := Copying(w.chance, old(w.fs), path, old(w.MakeDestPath(path, dest)), old(w.policy), k);
                   run.Some? ==> w.fs == run.value
    decreases if Under(w.MakeDestPath(path, dest), path) then 1 else 0,
              if Under(w.MakeDestPath(path, dest), path) then Below(w.fs, path) else |Subtree(w.fs, path)|, 2
  {
    hide Overlay, Decided, Cleared, Blocked, WellFormed, Apart, Full, Progress, Listing, Subtree, AllUnder, Kids,
         CopySafe, CopyingInto, Made, Depth, Below, Accounted, ReachedWithin, ReachedUnder, ReachedBelow, Stopping,
         Dead, Under, Heard, Consents, OneAsked, Opening, ForAll, ByConsent, Follows, Count;
    ghost var f, policy, input := w.fs, w.policy, w.InputNow();
    var dst := w.MakeDestPath(path, dest);
    declined, broken := {path}, {};
    StopAt(f, path, dst);
    TopUnder(f, path);
    var go, merge;
    go, merge, no, es := MakeRoom(w, path, dst);
    if !go {
      StopCause(f, path, dst, policy, es);
      NothingByConsent(f, path, dst, policy, es);
      if !w.faults && !w.exited && path in f { DecidedStop(f, path, dst, policy, no); }
      return;
    }
    ghost var top, heard := es, w.InputNow();
    declined, broken, no, es := CopyOn(w, f, policy, path, dst, merge, top);
    HeardThen(input, heard, w.InputNow(), top, es);
    ForAllMore(top, es);
    es := top + es;
  }

  /** Its second half, for an entry it goes on with; `top` is what has happened to that. */
  method CopyOn(w: World, ghost f: FS, ghost policy: Policy, path: Path, dst: Path, merge: bool, ghost top: seq<Event>)
    returns (ghost declined: set<Path>, ghost broken: set<Path>, ghost no: set<Path>, ghost es: seq<Event>)
    requires WellFormed(f) && WellFormed(w.fs) && path in f && dst != [] && !Under(path, dst) && !w.exited
    requires if merge then IsDir(f, path) && IsDir(f, dst) && w.fs == f else Cleared(f, w.fs, path, dst, policy)
    requires Opening(path, top) && Consents(top, path) && OneAsked(f, path, dst, policy, top)
    requires PolicyNow(policy, w.policy) && (w.policy == ReplaceAll ==> policy == ReplaceAll || ForAll(top))
    requires (!w.faults ==> !Blocked(f, path, dst, policy)) && (policy == SkipExisting ==> dst !in f)
    modifies w
    ensures WellFormed(w.fs) && (|dst| <= |path| ==> Depth(w.fs) <= Depth(f))
    ensures w.refused == old(w.refused) + no && PolicyNow(policy, w.policy)
    ensures old(w.actionLeaf) == None ==> w.actionLeaf == None
    ensures CopySafe(f, path, dst) ==>
              && Overlay(f, w.fs, path, dst, declined, broken)
              && AllUnder(path, declined) && AllUnder(path, broken) && no <= declined
              && Accounted(f, path, dst, policy, declined, broken, top + es)
              && ByConsent(f, w.fs, path, dst, policy, top + es)
    ensures w.events == old(w.events) + es && (w.exited <==> Dead(top + es)) && ReachedUnder(path, top + es)
    ensures Heard(old(w.InputNow()), w.InputNow(), es)
    ensures w.policy == ReplaceAll ==> old(w.policy) == ReplaceAll || ForAll(es)
    ensures CopySafe(f, path, dst) && Faultless(w) && !w.exited && IsDir(f, Parent(dst)) ==>
              broken == {} && Decided(f, path, dst, policy, Listing(f, path), declined, no)
    ensures old(Automatic(w)) && old(w.policy) == policy ==>
              && Automatic(w) && no == {}
              && forall k: nat :: var run := Copying(w.chance, f, path, dst, policy, k); run.Some? ==> w.fs == run.value
    decreases if Under(dst, path) then 1 else 0, if Under(dst, path) then Below(f, path) else |Subtree(f, path)|, 1
  {
    hide Overlay, Decided, Cleared, Blocked, WellFormed, Apart, Full, Progress, Listing, Subtree, AllUnder, Kids,
         CopySafe, CopyingInto, Made, Depth, Below, Accounted, ReachedWithin, ReachedUnder, ReachedBelow, Stopping,
         Dead, Under, Heard, Consents, OneAsked, Opening, ForAll, ByConsent, Follows, Count, Agreements, Parent;
    no := {};
    ghost var input, p0 := w.InputNow(), w.policy;
    var made := MakeTop(w, f, policy, path, dst, merge);
    if !made {
      declined, broken, es := Kids(path, Listing(f, path)), {path}, [Uncreated(dst)];
      TopUnder(f, path);
      BrokenCause(f, path, dst, policy, top);
      TopByConsent(f, w.fs, path, dst, policy, broken, top, es);
      HeardElse(input, input, [], Uncreated(dst)) by { HeardNothing(input); }
      assert [] + es == es;
      return;
    }
    DecidedStart(f, path, dst, policy);
    MadeByConsent(f, w.fs, path, dst, policy, top);
    if IsDir(w.fs, path) {
      ghost var g0 := w.fs;
      w.actionLeaf := None;
      declined, broken, no, es := CopyContents(w, f, policy, path, dst);
      AfterReached(f, path, dst, policy, declined, broken, top, es);
      if CopySafe(f, path, dst) { ContentsByConsent(f, g0, w.fs, path, dst, policy, p0, top, es); }
    } else {
      NoContents(f, w.fs, path, dst);
      declined, broken, es := {}, {}, [];
      TopUnder(f, path);
      NoCause(f, path, dst, policy);
      HeardNothing(input);
      assert top + [] == top;
    }
  }

  /** The entry itself, if it is not merged into one that is there. */
  method MakeTop(w: World, ghost f: FS, ghost policy: Policy, path: Path, dst: Path, merge: bool) returns (made: bool)
    requires WellFormed(f) && WellFormed(w.fs) && path in f && dst != [] && !Under(path, dst)
    requires if merge then IsDir(f, path) && IsDir(f, dst) && w.fs == f else Cleared(f, w.fs, path, dst, policy)
    modifies w`fs, w`events
    ensures w.events == old(w.events) + if made then [] else [Uncreated(dst)]
    ensures WellFormed(w.fs) && (|dst| <= |path| ==> Depth(w.fs) <= Depth(f))
    ensures !merge ==> Apart(path, dst) && CopySafe(f, path, dst)
    ensures merge ==> made && w.fs == f
    ensures made && CopySafe(f, path, dst) ==> Progress(f, w.fs, path, dst, {}, Listing(f, path), {}, {})
    ensures made ==> (IsDir(f, path) ==> IsDir(w.fs, dst)) && IsDir(w.fs, path) == IsDir(f, path)
    ensures made ==> if Under(dst, path) then w.fs == f else Subtree(w.fs, path) == Subtree(f, path)
    ensures !made ==> Overlay(f, w.fs, path, dst, Kids(path, Listing(f, path)), {path})
    ensures !made ==> !Faultless(w) || !IsDir(f, Parent(dst))
    ensures !w.faults && !merge ==> !(IsDir(f, path) && IsDir(f, dst)) && (w.fs, made) == Made(w.chance, f, path, dst)
  {
    hide Overlay, Cleared, Full, Progress, Made, Depth, Copied;
    ApartOrOver(path, dst);
    NotFull(f, w.fs, path, dst, policy, merge);
    if !merge {
      ghost var f1 := w.fs;
      ClearedApart(f, f1, path, dst, policy);
      ClearedParent(f, f1, path, Parent(dst), dst, policy);
      MadeIs(w.chance, f, f1, path, dst, policy);
      var created := Create(w, path, dst);
      if !created {
        BrokenTop(f, f1, w.fs, path, dst, policy);
        return false;
      }
      CopyTop(f, f1, w.fs, path, dst, policy);
    } else {
      CopyTop(f, f, f, path, dst, policy);
    }
    if CopySafe(f, path, dst) {
      ProgressStart(f, w.fs, path, dst);
      ProgressSource(f, w.fs, path, dst, {}, Listing(f, path), {}, {});
    }
    made := true;
  }

  lemma MadeIs(c: Chance, f: FS, f1: FS, src: Path, dst: Path, policy: Policy)
    requires Cleared(f, f1, src, dst, policy) && src in f1 && dst != []
    ensures Depth(f1) <= Depth(f)
    ensures Made(c, f, src, dst) ==
      if c.unwritable(dst) || !IsDir(f1, Parent(dst)) then (f1, false) else (f1[dst := Copied(c, f1[src], dst)], true)
  {
    assert f1 == f - {dst};
    DepthLeast(f1, Depth(f));
  }

  /** What a failed creation may leave. */
  ghost predicate Left(f1: FS, g: FS, path: Path, dst: Path)
    requires path in f1
  {
    g == f1 || (f1[path].kind.File? && exists node: Node :: node.kind.File? && g == f1[dst := node])
  }

  /** mkdir, symlink or copy_file; a failed copy may leave an unfinished file. */
  method Create(w: World, path: Path, dst: Path) returns (ok: bool)
    requires WellFormed(w.fs) && path in w.fs && dst !in w.fs && dst != []
    modifies w`fs, w`events
    ensures w.events == old(w.events) + if ok then [] else [Uncreated(dst)]
    ensures WellFormed(w.fs) && (|dst| <= |path| ==> Depth(w.fs) <= old(Depth(w.fs)))
    ensures ok ==> exists node :: CopyOf(node, old(w.fs)[path]) && w.fs == old(w.fs)[dst := node]
    ensures !ok ==> Left(old(w.fs), w.fs, path, dst)
    ensures !w.faults ==> (ok <==> !w.chance.unwritable(dst) && IsDir(old(w.fs), Parent(dst)))
    ensures !w.faults ==> w.fs == if ok then old(w.fs)[dst := Copied(w.chance, old(w.fs)[path], dst)] else old(w.fs)
  {
    hide Depth;
    var denied: bool, unfinished: bool, junk: int, now: int := *, *, *, *;
    var node := w.fs[path];
    if !IsDir(w.fs, Parent(dst)) || (!w.faults && w.chance.unwritable(dst)) {
      w.events := w.events + [Uncreated(dst)];
      return false;
    }
    var part, copy := Node(File(junk), now), Copied(w.chance, node, dst);
    AddWellFormed(w.fs, dst, part);
    AddWellFormed(w.fs, dst, copy);
    AddDepth(w.fs, path, dst, part);
    AddDepth(w.fs, path, dst, copy);
    if w.faults && denied {
      if node.kind.File? && unfinished { w.fs := w.fs[dst := part]; }
      w.events := w.events + [Uncreated(dst)];
      return false;
    }
    assert CopyOf(copy, node);
    w.fs := w.fs[dst := copy];
    return true;
  }

  lemma AddWellFormed(f: FS, p: Path, node: Node)
    requires WellFormed(f) && p !in f && p != [] && IsDir(f, Parent(p))
    ensures WellFormed(f[p := node])
  {
  }

  lemma AddDepth(f: FS, path: Path, dst: Path, node: Node)
    requires path in f
    ensures |dst| <= |path| ==> Depth(f[dst := node]) <= Depth(f)
  {
    if |dst| <= |path| {
      assert path in f.Keys;
      DepthLeast(f[dst := node], Depth(f));
    }
  }

  /** for_dir_contents(do_copy2, path, dst).  `f` is the file system before the copy of `path`
      began. */
  method CopyContents(w: World, ghost f: FS, ghost policy: Policy, path: Path, dst: Path)
    returns (ghost declined: set<Path>, ghost broken: set<Path>, ghost no: set<Path>, ghost es: seq<Event>)
    requires WellFormed(f) && WellFormed(w.fs) && !Under(path, dst) && w.actionLeaf == None && !w.exited
    requires IsDir(f, path) && IsDir(w.fs, path) && IsDir(w.fs, dst) && PolicyNow(policy, w.policy)
    requires if CopySafe(f, path, dst) then Progress(f, w.fs, path, dst, {}, Listing(f, path), {}, {}) else w.fs == f
    modifies w
    ensures WellFormed(w.fs) && w.actionLeaf == None
    ensures |dst| <= |path| ==> Depth(w.fs) <= old(Depth(w.fs))
    ensures w.refused == old(w.refused) + no && PolicyNow(policy, w.policy)
    ensures w.events == old(w.events) + es && (w.exited <==> Dead(es)) && ReachedBelow(path, es)
    ensures CopySafe(f, path, dst) ==> Accounted(f, path, dst, policy, declined, broken, es)
    ensures CopySafe(f, path, dst) ==> ByConsent(old(w.fs), w.fs, path, dst, old(w.policy), es)
    ensures Heard(old(w.InputNow()), w.InputNow(), es)
    ensures w.policy == ReplaceAll ==> old(w.policy) == ReplaceAll || ForAll(es)
    ensures CopySafe(f, path, dst) ==>
              && Overlay(f, w.fs, path, dst, declined, broken)
              && AllUnder(path, declined) && AllUnder(path, broken) && no <= declined && path !in declined
    ensures CopySafe(f, path, dst) && Faultless(w) && !w.exited && Decided(f, path, dst, policy, {}, {}, {}) ==>
              broken == {} && Decided(f, path, dst, policy, Listing(f, path), declined, no)
    ensures old(Automatic(w)) && (old(w.policy) != SkipExisting || dst !in f) ==>
              && Automatic(w) && no == {}
              && forall k: nat :: var run := CopyingInto(w.chance, old(w.fs), path, dst, old(w.policy), k);
                   run.Some? ==> w.fs == run.value
    decreases if Under(dst, path) then 1 else 0,
              if Under(dst, path) then Below(w.fs, path) else |Subtree(w.fs, path)|, 0
  {
    hide Overlay, Decided, Underway, Progress, WellFormed, Apart, AllUnder, Within, Same, Kids, Under, Listing,
         Subtree, CopySafe, Copying, CopiedSoFar, Depth, Below, Lists, Faultless, Blocked, PolicyNow, PolicyRefuses,
         CopyingAll, Accounted, ReachedBelow, Dead, Heard, ForAll, ByConsent;
    ghost var g0, p0, input, all := w.fs, w.policy, w.InputNow(), Listing(w.fs, path);
    HeardNothing(input);
    ghost var auto := Automatic(w) && (p0 != SkipExisting || dst !in f);
    declined, broken, no, es := {}, {}, {}, [];
    var ok := w.OpenDir(path);
    if !ok {
      declined, es := Kids(path, all), [Unlisted(path)];
      NotListed(f, g0, path, dst, policy, p0);
      NotFaultless(w);
      assert [] + es == es;
      HeardElse(input, input, [], Unlisted(path));
      return;
    }
    var names := w.ReadDir(path);
    Begin(w.chance, f, g0, path, dst, policy, p0, names, auto);
    ghost var t := Tally({}, all, {}, {}, {}, []);
    var i := 0;
    while i < |names| && !w.exited
      invariant 0 <= i <= |names| && w.actionLeaf == None && w.refused == old(w.refused) + t.no
      invariant w.events == old(w.events) + t.es && (w.exited <==> Dead(t.es))
      invariant auto ==> Automatic(w)
      invariant Heard(input, w.InputNow(), t.es)
      invariant Underway(w.chance, f, g0, w.fs, path, dst, policy, p0, w.policy, names, i, t, Faultless(w) && !w.exited,
                         auto)
      decreases |names| - i
    {
      ghost var g, now, heard := w.fs, w.policy, w.InputNow();
      NextEntry(w.chance, f, g0, g, path, dst, policy, p0, now, names, i, t, Faultless(w), auto);
      ghost var declined1, broken1, no1, es1 := DoCopy2(w, Child(path, names[i]), dst);
      EntryDone(w.chance, f, g0, g, w.fs, path, dst, policy, p0, now, w.policy, names, i, t, declined1, broken1, no1,
                es1, Faultless(w), Faultless(w) && !w.exited, auto);
      HeardThen(input, heard, w.InputNow(), t.es, es1);
      Regroup(old(w.events), t.es, es1);
      t := Next(t, names[i], declined1, broken1, no1, es1);
      i := i + 1;
    }
    StopShort(w.chance, f, g0, w.fs, path, dst, policy, p0, w.policy, names, i, t, Faultless(w) && !w.exited, auto);
    declined, broken, no, es := t.declined + Kids(path, t.todo), t.broken, t.no, t.es;
  }

  // ----- the loop

  /** The children that have been dealt with and those that wait, where the run stopped, and
      what has happened. */
  datatype Tally = Tally(
    done: set<Name>, todo: set<Name>, declined: set<Path>, broken: set<Path>, no: set<Path>, es: seq<Event>)

  function Next(t: Tally, n: Name, declined: set<Path>, broken: set<Path>, no: set<Path>, es: seq<Event>): Tally {
    Tally(t.done + {n}, t.todo - {n}, t.declined + declined, t.broken + broken, t.no + no, t.es + es)
  }

  /** What holds when `i` children have been dealt with: `g0` is the state the loop began in. */
  ghost predicate Underway(c: Chance, f: FS, g0: FS, g: FS, src: Path, dst: Path, policy: Policy, p0: Policy,
                           now: Policy, names: seq<Name>, i: nat, t: Tally, calm: bool, auto: bool)
    requires i <= |names|
  {
    && WellFormed(g) && (|dst| <= |src| ==> Depth(g) <= Depth(g0)) && PolicyNow(policy, now)
    && Lists(names[i..], t.todo) && Parted(t.done, t.todo, Listing(g0, src)) && ReachedWithin(src, t.done, t.es)
    && (CopySafe(f, src, dst) ==> Accounted(f, src, dst, policy, t.declined, t.broken, t.es))
    && (CopySafe(f, src, dst) ==> ByConsent(g0, g, src, dst, p0, t.es))
    && PolicyNow(p0, now) && (now == ReplaceAll ==> p0 == ReplaceAll || ForAll(t.es))
    && (CopySafe(f, src, dst) ==> SoFar(f, g, src, dst, policy, t.done, t.todo, t.declined, t.broken, t.no, calm))
    && (auto ==> now == p0 && t.no == {} && CopiedSoFar(c, g0, g, src, dst, p0, names, i))
  }

  lemma NotListed(f: FS, g0: FS, src: Path, dst: Path, policy: Policy, p0: Policy)
    requires CopySafe(f, src, dst) ==> Progress(f, g0, src, dst, {}, Listing(f, src), {}, {})
    ensures CopySafe(f, src, dst) ==>
      && Overlay(f, g0, src, dst, Kids(src, Listing(g0, src)), {})
      && AllUnder(src, Kids(src, Listing(g0, src))) && AllUnder(src, {}) && src !in Kids(src, Listing(g0, src))
      && Accounted(f, src, dst, policy, Kids(src, Listing(g0, src)), {}, [Unlisted(src)])
    ensures !Dead([Unlisted(src)]) && ReachedBelow(src, [Unlisted(src)])
    ensures ByConsent(g0, g0, src, dst, p0, [Unlisted(src)])
  {
    NothingByConsent(g0, src, dst, p0, [Unlisted(src)]);
    UnlistedCause(f, src, dst, policy, Listing(g0, src));
    hide CopySafe, Overlay, AllUnder, Listing, Progress;
    if CopySafe(f, src, dst) {
      ProgressSource(f, g0, src, dst, {}, Listing(f, src), {}, {});
      ProgressEnd(f, g0, src, dst, {}, Listing(f, src), {}, {});
      assert {} + Kids(src, Listing(f, src)) == Kids(src, Listing(f, src));
    }
  }

  lemma Begin(c: Chance, f: FS, g0: FS, src: Path, dst: Path, policy: Policy, p0: Policy, names: seq<Name>, auto: bool)
    requires WellFormed(g0) && PolicyNow(policy, p0) && Lists(names, Listing(g0, src)) && IsDir(g0, dst)
    requires CopySafe(f, src, dst) ==> Progress(f, g0, src, dst, {}, Listing(f, src), {}, {})
    ensures CopySafe(f, src, dst) ==> Listing(g0, src) == Listing(f, src)
    ensures var t := Tally({}, Listing(g0, src), {}, {}, {}, []);
      && !Dead(t.es)
      && Underway(c, f, g0, g0, src, dst, policy, p0, p0, names, 0, t, true, auto)
      && Underway(c, f, g0, g0, src, dst, policy, p0, p0, names, 0, t, false, auto)
  {
    hide Progress, CopySafe, SoFar, Lists, CopiedSoFar, WellFormed, Depth, Listing;
    assert names[0..] == names;
    CopiedStart(c, g0, src, dst, p0, names);
    NoCause(f, src, dst, policy);
    NothingByConsent(g0, src, dst, p0, []);
    if CopySafe(f, src, dst) {
      ProgressSource(f, g0, src, dst, {}, Listing(f, src), {}, {});
      SoFarStart(f, g0, src, dst, policy, Listing(g0, src));
    }
  }

  /** The call for the next child is allowed, and its recursion is shorter. */
  lemma NextEntry(ch: Chance, f: FS, g0: FS, g: FS, src: Path, dst: Path, policy: Policy, p0: Policy, now: Policy,
                  names: seq<Name>, i: nat, t: Tally, calm: bool, auto: bool)
    requires i < |names| && Underway(ch, f, g0, g, src, dst, policy, p0, now, names, i, t, calm, auto)
    requires WellFormed(f) && WellFormed(g0) && IsDir(f, src) && IsDir(g0, src) && !Under(src, dst)
    requires if CopySafe(f, src, dst) then Progress(f, g0, src, dst, {}, Listing(f, src), {}, {})
             else g0 == f && IsDir(f, dst)
    ensures var c, d := Child(src, names[i]), Child(dst, names[i]);
      && WellFormed(g) && c != [] && Leaf(c) == names[i] && !Under(c, d)
      && (Under(d, c) ==> Under(dst, src) && Below(g, c) < Below(g0, src))
      && (!Under(d, c) && !Under(dst, src) ==> |Subtree(g, c)| < |Subtree(g0, src)|)
  {
    hide Progress, CopySafe, Lists, CopiedSoFar, WellFormed, Listing, PolicyNow, Subtree, Below, Depth, SoFar, Parted;
    NextName(names, i, t.todo);
    if CopySafe(f, src, dst) {
      SoFarProgress(f, g, src, dst, policy, t.done, t.todo, t.declined, t.broken, t.no, calm);
      ProgressSource(f, g0, src, dst, {}, Listing(f, src), {}, {});
    }
    BeforeChild(f, g0, g, src, dst, t.done, t.todo, t.declined, t.broken, names[i]);
  }

  lemma EntryDone(ch: Chance, f: FS, g0: FS, g: FS, h: FS, src: Path, dst: Path, policy: Policy, p0: Policy,
                  now: Policy, now1: Policy, names: seq<Name>, i: nat, t: Tally,
                  declined: set<Path>, broken: set<Path>, no: set<Path>, es: seq<Event>,
                  was: bool, calm: bool, auto: bool)
    requires i < |names| && Underway(ch, f, g0, g, src, dst, policy, p0, now, names, i, t, was, auto) && (calm ==> was)
    requires WellFormed(f) && WellFormed(g0) && IsDir(f, src) && IsDir(g0, src) && !Under(src, dst)
    requires if CopySafe(f, src, dst) then Progress(f, g0, src, dst, {}, Listing(f, src), {}, {})
             else g0 == f && IsDir(f, dst)
    requires WellFormed(h) && (|dst| <= |src| ==> Depth(h) <= Depth(g)) && PolicyNow(now, now1) && !Dead(t.es)
    requires ReachedUnder(Child(src, names[i]), es) && (now1 == ReplaceAll ==> now == ReplaceAll || ForAll(es))
    requires var c, d := Child(src, names[i]), Child(dst, names[i]);
      && (CopySafe(g, c, d) ==>
            && Overlay(g, h, c, d, declined, broken) && AllUnder(c, declined) && AllUnder(c, broken) && no <= declined
            && Accounted(g, c, d, now, declined, broken, es) && ByConsent(g, h, c, d, now, es))
      && (CopySafe(g, c, d) && calm && IsDir(g, dst) && c in g ==>
            broken == {} && Decided(g, c, d, now, Listing(g, c), declined, no))
      && (auto ==>
            && no == PolicyRefuses(g, c, d, now) && p0 != Ask && (p0 != SkipExisting || dst !in f)
            && forall k: nat :: Copying(ch, g, c, d, now, k).Some? ==> h == Copying(ch, g, c, d, now, k).value)
    ensures Underway(ch, f, g0, h, src, dst, policy, p0, now1, names, i + 1,
                     Next(t, names[i], declined, broken, no, es), calm, auto)
    ensures Dead(t.es + es) <==> Dead(es)
  {
    hide Progress, CopySafe, Lists, CopiedSoFar, WellFormed, Listing, Depth, SoFar, Overlay, Decided, AllUnder,
         Parted, Copying;
    var n := names[i];
    NextName(names, i, t.todo);
    PartNext(t.done, t.todo, Listing(g0, src), n);
    PolicyStill(policy, now, now1);
    EventsMore(src, t.done, n, t.es, es);
    if CopySafe(f, src, dst) {
      SoFarProgress(f, g, src, dst, policy, t.done, t.todo, t.declined, t.broken, t.no, was);
      ProgressSource(f, g0, src, dst, {}, Listing(f, src), {}, {});
      SafeEntry(f, g0, g, src, dst, t.done, t.todo, t.declined, t.broken, n);
      AfterChild(f, g, h, src, dst, policy, now, t.done, t.todo - {n}, n, t.declined, t.broken, t.no,
                 declined, broken, no, was, calm);
      WaitingUntouched(f, g, src, dst, t.done, t.todo, t.declined, t.broken, n);
      AccountedChild(f, g, src, dst, policy, now, t.done, n, t.declined, t.broken, t.es, declined, broken, es);
      EntryByConsent(f, g0, g, h, src, dst, policy, p0, now, n, t, declined, broken, es);
    }
    PolicyStill(p0, now, now1);
    ForAllMore(t.es, es);
    if auto { CopiedNextName(ch, g0, g, h, src, dst, p0, names, i); }
  }

  lemma EntryByConsent(f: FS, g0: FS, g: FS, h: FS, src: Path, dst: Path, policy: Policy, p0: Policy, now: Policy,
                       n: Name, t: Tally, declined: set<Path>, broken: set<Path>, es: seq<Event>)
    requires CopySafe(f, src, dst) && n in t.todo && n in Listing(f, src)
    requires Progress(f, g0, src, dst, {}, Listing(f, src), {}, {})
    requires Progress(f, g, src, dst, t.done, t.todo, t.declined, t.broken)
    requires ByConsent(g0, g, src, dst, p0, t.es) && ByConsent(g, h, Child(src, n), Child(dst, n), now, es)
    requires PolicyNow(p0, now) && (now == ReplaceAll ==> p0 == ReplaceAll || ForAll(t.es))
    requires Overlay(g, h, Child(src, n), Child(dst, n), declined, broken) && ReachedUnder(Child(src, n), es)
    ensures ByConsent(g0, h, src, dst, p0, t.es + es)
  {
    hide ByConsent, Progress, CopySafe, PolicyNow, ForAll, Listing, ReachedUnder;
    WaitingUntouched(f, g0, src, dst, {}, Listing(f, src), {}, {}, n);
    WaitingUntouched(f, g, src, dst, t.done, t.todo, t.declined, t.broken, n);
    SameSince(f, g0, g, Child(src, n));
    SameSince(f, g0, g, Child(dst, n));
    ChildByConsent(g0, g, h, src, dst, n, p0, now, t.es, es);
  }

  /** The state in which the loop ends, for whatever reason. */
  lemma StopShort(c: Chance, f: FS, g0: FS, g: FS, src: Path, dst: Path, policy: Policy, p0: Policy, now: Policy,
                  names: seq<Name>, i: nat, t: Tally, calm: bool, auto: bool)
    requires i <= |names| && Underway(c, f, g0, g, src, dst, policy, p0, now, names, i, t, calm, auto)
    requires CopySafe(f, src, dst) ==> Listing(g0, src) == Listing(f, src)
    ensures WellFormed(g) && (|dst| <= |src| ==> Depth(g) <= Depth(g0)) && PolicyNow(policy, now)
    ensures ReachedBelow(src, t.es) && (now == ReplaceAll ==> p0 == ReplaceAll || ForAll(t.es))
    ensures CopySafe(f, src, dst) ==> ByConsent(g0, g, src, dst, p0, t.es)
    ensures var declined := t.declined + Kids(src, t.todo);
      CopySafe(f, src, dst) ==>
        && Overlay(f, g, src, dst, declined, t.broken)
        && AllUnder(src, declined) && AllUnder(src, t.broken) && t.no <= declined && src !in declined
        && (i == |names| || Dead(t.es) ==> Accounted(f, src, dst, policy, declined, t.broken, t.es))
        && (calm && i == |names| && Decided(f, src, dst, policy, {}, {}, {}) ==>
              t.broken == {} && Decided(f, src, dst, policy, Listing(f, src), declined, t.no))
    ensures auto && i == |names| && Lists(names, Listing(g0, src))
            && (Lists(c.order(src, Listing(g0, src)), Listing(g0, src)) ==> names == c.order(src, Listing(g0, src))) ==>
      t.no == {} &&
      forall k: nat :: CopyingInto(c, g0, src, dst, p0, k).Some? ==> g == CopyingInto(c, g0, src, dst, p0, k).value
  {
    hide CopySafe, Lists, CopiedSoFar, WellFormed, Listing, Depth, Overlay, Decided, AllUnder, Parted, Progress,
         SoFar;
    PartAll(t.done, t.todo, Listing(g0, src));
    if i == |names| { ListsNext(names[i..], t.todo); }
    if CopySafe(f, src, dst) {
      SoFarProgress(f, g, src, dst, policy, t.done, t.todo, t.declined, t.broken, t.no, calm);
      ProgressEnd(f, g, src, dst, t.done, t.todo, t.declined, t.broken);
      if i == |names| || Dead(t.es) {
        AccountedRest(f, src, dst, policy, t.done, t.todo, t.declined, t.broken, t.es);
      }
    }
    if auto && i == |names| { CopiedEnd(c, g0, g, src, dst, p0, names); }
  }

  /** Each of `all` is either done or waiting. */
  ghost predicate Parted(done: set<Name>, todo: set<Name>, all: set<Name>) {
    done !! todo && done + todo == all
  }

  lemma PartNext(done: set<Name>, todo: set<Name>, all: set<Name>, n: Name)
    requires Parted(done, todo, all) && n in todo
    ensures Parted(done + {n}, todo - {n}, all) && n !in done && n !in todo - {n} && todo - {n} + {n} == todo
  {
  }

  lemma PartAll(done: set<Name>, todo: set<Name>, all: set<Name>)
    requires Parted(done, todo, all)
    ensures done !! todo && (todo == {} ==> done == all)
  {
  }

  lemma SoFarStart(f: FS, g: FS, src: Path, dst: Path, policy: Policy, todo: set<Name>)
    requires Progress(f, g, src, dst, {}, todo, {}, {}) && IsDir(g, dst)
    ensures SoFar(f, g, src, dst, policy, {}, todo, {}, {}, {}, true)
    ensures SoFar(f, g, src, dst, policy, {}, todo, {}, {}, {}, false)
  {
  }

  lemma SoFarProgress(f: FS, g: FS, src: Path, dst: Path, policy: Policy, done: set<Name>, todo: set<Name>,
                        declined: set<Path>, broken: set<Path>, no: set<Path>, calm: bool)
    requires SoFar(f, g, src, dst, policy, done, todo, declined, broken, no, calm)
    ensures Progress(f, g, src, dst, done, todo, declined, broken) && IsDir(g, dst) && no <= declined
    ensures calm && Decided(f, src, dst, policy, {}, {}, {}) ==>
              broken == {} && Decided(f, src, dst, policy, done, declined, no)
  {
  }

  lemma PolicyStill(policy: Policy, was: Policy, now: Policy)
    requires PolicyNow(policy, was) && PolicyNow(was, now)
    ensures PolicyNow(policy, now) && (was != Ask ==> now == was)
  {
  }

  lemma NotFaultless(w: World)
    requires w.faults
    ensures !Faultless(w) && !Automatic(w)
  {
  }

  /** In a directory that has just been created there is nothing to skip. */
  lemma NothingThere(f: FS, g: FS, src: Path, dst: Path, done: set<Name>, todo: set<Name>,
                     declined: set<Path>, broken: set<Path>, n: Name)
    requires WellFormed(f) && CopySafe(f, src, dst) && n in todo
    requires Progress(f, g, src, dst, done, todo, declined, broken)
    ensures dst !in f ==> Child(dst, n) !in g
  {
    WaitingUntouched(f, g, src, dst, done, todo, declined, broken, n);
    if dst !in f { NothingBelow(f, dst); }
    assert Under(Child(dst, n), Child(dst, n));
  }

  /** The recursion for a child is shorter. */
  lemma BeforeChild(f: FS, g0: FS, g: FS, src: Path, dst: Path, done: set<Name>, todo: set<Name>,
                    declined: set<Path>, broken: set<Path>, n: Name)
    requires src in f && src in g0 && !Under(src, dst) && n in todo
    requires Parted(done, todo, Listing(g0, src)) && (|dst| <= |src| ==> Depth(g) <= Depth(g0))
    requires CopySafe(f, src, dst) ==>
      Progress(f, g, src, dst, done, todo, declined, broken) && forall p :: Under(src, p) ==> Same(f, g0, p)
    ensures var c, d := Child(src, n), Child(dst, n);
      && c != [] && Leaf(c) == n && !Under(c, d)
      && (Under(d, c) ==> Under(dst, src) && Below(g, c) < Below(g0, src))
      && (!Under(d, c) && !Under(dst, src) ==> |Subtree(g, c)| < |Subtree(g0, src)|)
  {
    hide Progress, Subtree, Listing, Depth;
    var c, d := Child(src, n), Child(dst, n);
    ApartOrOver(src, dst);
    if Over(src, dst) {
      OverChildren(src, dst, n);
      assert n in Listing(g0, src);
      ListingSound(g0, src, n);
      DepthThere(g0, c);
    } else {
      ApartChildren(src, dst, n);
      WaitingUntouched(f, g, src, dst, done, todo, declined, broken, n);
      SmallerThere(f, g0, g, src, n);
    }
  }

  lemma DepthThere(f: FS, p: Path)
    requires p in f
    ensures |p| <= Depth(f)
  {
    assert p in f.Keys;
  }

  /** The call for a child is safe, and refuses nothing in a directory that is new. */
  lemma SafeEntry(f: FS, g0: FS, g: FS, src: Path, dst: Path, done: set<Name>, todo: set<Name>,
                  declined: set<Path>, broken: set<Path>, n: Name)
    requires WellFormed(f) && CopySafe(f, src, dst) && n in todo
    requires Parted(done, todo, Listing(g0, src)) && Listing(g0, src) == Listing(f, src)
    requires Progress(f, g, src, dst, done, todo, declined, broken)
    ensures var c, d := Child(src, n), Child(dst, n); CopySafe(g, c, d) && c in g && (dst !in f ==> d !in g)
  {
    hide CopySafe, Progress, WellFormed, Listing;
    ProgressSource(f, g, src, dst, done, todo, declined, broken);
    SafeChild(f, g, src, dst, n);
    NothingThere(f, g, src, dst, done, todo, declined, broken, n);
    assert Under(src, Child(src, n));
    ListedThere(f, g, src, n);
  }

  lemma AfterChild(f: FS, g: FS, h: FS, src: Path, dst: Path, policy: Policy, now: Policy, done: set<Name>,
                   todo: set<Name>, n: Name, declined: set<Path>, broken: set<Path>, no: set<Path>,
                   declined1: set<Path>, broken1: set<Path>, no1: set<Path>, was: bool, calm: bool)
    requires WellFormed(g) && CopySafe(f, src, dst) && n !in todo && n !in done && PolicyNow(policy, now)
    requires SoFar(f, g, src, dst, policy, done, todo + {n}, declined, broken, no, was) && (calm ==> was)
    requires Overlay(g, h, Child(src, n), Child(dst, n), declined1, broken1) && no1 <= declined1
    requires AllUnder(Child(src, n), declined1) && AllUnder(Child(src, n), broken1)
    requires calm ==>
      broken1 == {} && Decided(g, Child(src, n), Child(dst, n), now, Listing(g, Child(src, n)), declined1, no1)
    ensures SoFar(f, h, src, dst, policy, done + {n}, todo, declined + declined1, broken + broken1, no + no1, calm)
  {
    hide Overlay, Progress, AllUnder, Within, CopySafe, Decided, WellFormed;
    OverlayAbove(g, h, src, dst, n, declined1, broken1);
    WithinChild(src, n, declined1);
    WithinChild(src, n, broken1);
    ProgressChild(f, g, h, src, dst, done, todo, n, declined, broken, declined1, broken1);
    if calm && Decided(f, src, dst, policy, {}, {}, {}) {
      WaitingUntouched(f, g, src, dst, done, todo + {n}, declined, broken, n);
      DecidedChild(f, g, src, dst, policy, now, done, n, declined, no, declined1, no1);
    }
  }

  lemma SmallerThere(f: FS, g0: FS, g: FS, src: Path, n: Name)
    requires src in f && forall p :: Under(src, p) ==> Same(f, g0, p)
    requires forall p :: Under(Child(src, n), p) ==> Same(f, g, p)
    ensures |Subtree(g, Child(src, n))| < |Subtree(g0, src)|
  {
    forall p | Under(Child(src, n), p) ensures Same(g0, g, p) {
      UnderTrans(src, Child(src, n), p);
    }
    assert Under(src, src);
    SmallerSubtree(g0, g, src, n);
  }

  lemma ListedThere(f: FS, g: FS, src: Path, n: Name)
    requires n in Listing(f, src) && Same(f, g, Child(src, n))
    ensures Child(src, n) in g
  {
    ListingSound(f, src, n);
  }

  lemma OverlayAbove(g: FS, h: FS, src: Path, dst: Path, n: Name, declined: set<Path>, broken: set<Path>)
    requires Overlay(g, h, Child(src, n), Child(dst, n), declined, broken)
    ensures Same(g, h, dst)
  {
    assert !Under(Child(dst, n), dst);
  }
}
