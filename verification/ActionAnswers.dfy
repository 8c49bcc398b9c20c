/** What the user's answers decide for the procedures of action.c: without consent nothing is
    replaced, made or removed. */
module ActionAnswers {
  import opened FileTree
  import opened ActionWorld
  import opened ActionConsent
  import opened ActionConflict
  import Copy = ActionCopy
  import Move = ActionMove
  import Delete = ActionDelete

  // ----- bytes that do not agree

  /** Without a byte that agrees, nothing has been agreed to. */
  lemma NoYes(x: Input, y: Input, es: seq<Event>)
    requires Heard(x, y, es)
    ensures 'Y' !in x.rest ==> forall p :: Agreed(p, false) !in es
    ensures 'A' !in x.rest ==> forall p :: Agreed(p, true) !in es
  {
    forall p
      ensures 'Y' !in x.rest ==> Agreed(p, false) !in es
      ensures 'A' !in x.rest ==> Agreed(p, true) !in es
    {
      if 'Y' !in x.rest {
        NoCount(x.rest, 'Y');
        NoAgreement(es, p, false);
      }
      if 'A' !in x.rest {
        NoCount(x.rest, 'A');
        NoAgreement(es, p, true);
      }
    }
  }

  /** Then nothing is gone on with but what needs no question. */
  lemma OnlyUnasked(f: FS, src: Path, dst: Path, policy: Policy, es: seq<Event>, x: Input, y: Input, p: Path)
    requires Orderly(f, src, dst, policy, es) && Heard(x, y, es) && Consents(es, p)
    requires 'Y' !in x.rest && 'A' !in x.rest && (policy == Ask || policy == SkipExisting)
    ensures Under(src, p) && p in f
    ensures var q := Rebase(p, src, dst);
      if q in f then IsDir(f, p) && IsDir(f, q) && (x.options.merge || 'M' in x.rest)
      else x.options.quiet || 'Q' in x.rest
  {
    NoYes(x, y, es);
    hide Follows;
    var o :| Weighed(p, o, false) in es;
    var i :| 0 <= i < |es| && es[i] == Weighed(p, o, false);
    assert Setting(o, 'M') == o.merge && Setting(o, 'Q') == o.quiet;
    OptionsKept(x, o);
  }

  lemma OptionsKept(x: Input, o: Options)
    requires Follows(x, Input(o, [], false))
    ensures 'Q' !in x.rest ==> o.quiet == x.options.quiet
    ensures 'F' !in x.rest ==> o.force == x.options.force
    ensures 'M' !in x.rest ==> o.merge == x.options.merge
  {
    assert IsLetter('Q') && IsLetter('F') && IsLetter('M');
    assert Setting(o, 'Q') == o.quiet && Setting(x.options, 'Q') == x.options.quiet;
    assert Setting(o, 'F') == o.force && Setting(x.options, 'F') == x.options.force;
    assert Setting(o, 'M') == o.merge && Setting(x.options, 'M') == x.options.merge;
  }

  /** Whoever neither agrees nor has set a policy that does keeps everything as it is that was
      there before a copy; and unless the copy is quiet, or is told to be, nothing is added. */
  lemma CopyNeedsYes(f: FS, g: FS, src: Path, dst: Path, policy: Policy, declined: set<Path>, broken: set<Path>,
                     es: seq<Event>, x: Input, y: Input)
    requires Copy.Overlay(f, g, src, dst, declined, broken) && Copy.ByConsent(f, g, src, dst, policy, es)
    requires Heard(x, y, es) && (policy == Ask || policy == SkipExisting) && 'Y' !in x.rest && 'A' !in x.rest
    ensures forall q :: q in f ==> Same(f, g, q)
    ensures !x.options.quiet && 'Q' !in x.rest ==> g == f
  {
    hide Heard, Consents, Orderly, Copy.CopyOk;
    forall q
      ensures q in f || (!x.options.quiet && 'Q' !in x.rest) ==> Same(f, g, q)
    {
      if Under(dst, q) {
        var p := Rebase(q, dst, src);
        if !Same(f, g, q) {
          OnlyUnasked(f, src, dst, policy, es, x, y, p);
          if q in f { MergedSame(f, g, src, dst, declined, broken, p); }
        }
      }
    }
  }

  lemma AllSame(f: FS, g: FS)
    requires forall q :: Same(f, g, q)
    ensures g == f
  {
    assert forall q :: Same(f, g, q) ==> (q in f <==> q in g);
  }

  lemma MergedSame(f: FS, g: FS, src: Path, dst: Path, declined: set<Path>, broken: set<Path>, p: Path)
    requires Copy.Overlay(f, g, src, dst, declined, broken)
    requires Under(src, p) && IsDir(f, p) && IsDir(f, Rebase(p, src, dst))
    ensures Same(f, g, Rebase(p, src, dst))
  {
    assert Copy.CopyOk(f, g, p, Rebase(p, src, dst), declined, broken);
  }

  /** The same for a move, which also leaves its source as it is unless it is quiet or merges
      directories, or is told to. */
  lemma MoveNeedsYes(f: FS, g: FS, src: Path, dst: Path, policy: Policy, es: seq<Event>, x: Input, y: Input)
    requires Move.Moved(f, g, src, dst, policy) && Move.ByConsent(f, g, src, dst, policy, es)
    requires Heard(x, y, es) && (policy == Ask || policy == SkipExisting) && 'Y' !in x.rest && 'A' !in x.rest
    ensures forall p :: Under(src, p) && Rebase(p, src, dst) in f && (p in f || !Under(src, Rebase(p, src, dst))) ==>
              Same(f, g, Rebase(p, src, dst))
    ensures !x.options.quiet && 'Q' !in x.rest && !x.options.merge && 'M' !in x.rest ==> g == f
  {
    hide Heard, Consents, Orderly, Move.PairOk;
    forall p | Under(src, p)
      ensures var q := Rebase(p, src, dst); q in f && (p in f || !Under(src, q)) ==> Same(f, g, q)
    {
      var q := Rebase(p, src, dst);
      if q in f && (p in f || !Under(src, q)) && !Same(f, g, q) {
        Counterpart(f, g, src, dst, policy, p);
        OnlyUnasked(f, src, dst, policy, es, x, y, p);
      }
    }
    if !x.options.quiet && 'Q' !in x.rest && !x.options.merge && 'M' !in x.rest {
      forall p | Under(src, p) && p in f ensures p in g {
        if p !in g {
          var z :| Under(src, z) && Under(z, p) && z in f && Consents(es, z);
          OnlyUnasked(f, src, dst, policy, es, x, y, z);
        }
      }
      forall q ensures Same(f, g, q) {
        if Under(src, q) {
          SourceSame(f, g, src, dst, policy, q);
        } else if Under(dst, q) {
          Counterpart(f, g, src, dst, policy, Rebase(q, dst, src));
        }
      }
      AllSame(f, g);
    }
  }

  lemma Counterpart(f: FS, g: FS, src: Path, dst: Path, policy: Policy, p: Path)
    requires Move.Moved(f, g, src, dst, policy) && Under(src, p) && (p in f || !Under(src, Rebase(p, src, dst)))
    ensures var q := Rebase(p, src, dst);
      && (p !in f || (IsDir(f, p) && IsDir(f, q)) ==> Same(f, g, q))
      && (p in f && p in g && q !in f ==> Same(f, g, q))
  {
    assert Move.PairOk(f, g, p, Rebase(p, src, dst), policy);
  }

  lemma SourceSame(f: FS, g: FS, src: Path, dst: Path, policy: Policy, p: Path)
    requires Move.Moved(f, g, src, dst, policy) && Under(src, p) && (p in f ==> p in g)
    ensures Same(f, g, p)
  {
    if p in f { assert Move.PairOk(f, g, p, Rebase(p, src, dst), policy); }
  }

  /** What lets an existing entry be replaced: a policy, the user's yes to it, or an earlier yes
      to all. */
  ghost predicate LeaveToReplace(policy: Policy, es: seq<Event>, p: Path) {
    || Standing(policy) || (exists all :: Agreed(p, all) in es)
    || exists i :: 0 <= i < |es| && es[i].Weighed? && es[i].path == p && ForAll(es[..i])
  }

  /** What lets a new one be made: the user's yes, or being quiet when its turn comes. */
  ghost predicate LeaveToMake(es: seq<Event>, p: Path) {
    (exists all :: Agreed(p, all) in es) || exists o :: Weighed(p, o, false) in es && o.quiet
  }

  lemma ConsentMeans(f: FS, src: Path, dst: Path, policy: Policy, es: seq<Event>, p: Path)
    requires Orderly(f, src, dst, policy, es) && Consents(es, p) && Under(src, p)
    ensures var q := Rebase(p, src, dst);
      if q in f then (IsDir(f, p) && IsDir(f, q)) || LeaveToReplace(policy, es, p) else LeaveToMake(es, p)
  {
    if o :| Weighed(p, o, false) in es {
      var i :| 0 <= i < |es| && es[i] == Weighed(p, o, false);
    }
  }

  /** What lets `x` be moved, or merged if it is `p` itself. */
  ghost predicate LeaveToTake(f: FS, src: Path, dst: Path, policy: Policy, es: seq<Event>, x: Path, p: Path)
    requires Under(src, x)
  {
    var y := Rebase(x, src, dst);
    if y !in f then LeaveToMake(es, x) else (x == p && IsDir(f, x) && IsDir(f, y)) || LeaveToReplace(policy, es, x)
  }

  /** In every run, whatever is answered and whatever fails. */
  lemma CopyByLeave(f: FS, g: FS, src: Path, dst: Path, policy: Policy, declined: set<Path>, broken: set<Path>,
                    es: seq<Event>, p: Path)
    requires Copy.Overlay(f, g, src, dst, declined, broken) && Copy.ByConsent(f, g, src, dst, policy, es)
    requires Under(src, p) && !Same(f, g, Rebase(p, src, dst))
    ensures p in f && if Rebase(p, src, dst) in f then LeaveToReplace(policy, es, p) else LeaveToMake(es, p)
  {
    hide Consents, Orderly, LeaveToReplace, LeaveToMake, Copy.Overlay;
    ConsentMeans(f, src, dst, policy, es, p);
    if IsDir(f, p) && IsDir(f, Rebase(p, src, dst)) { MergedSame(f, g, src, dst, declined, broken, p); }
  }

  lemma MoveByLeave(f: FS, g: FS, src: Path, dst: Path, policy: Policy, es: seq<Event>, p: Path)
    requires Move.Moved(f, g, src, dst, policy) && Move.ByConsent(f, g, src, dst, policy, es)
    requires Under(src, p) && p in f
    ensures Rebase(p, src, dst) in f && !Same(f, g, Rebase(p, src, dst)) ==> LeaveToReplace(policy, es, p)
    ensures p !in g ==>
              exists x :: Under(src, x) && Under(x, p) && x in f && LeaveToTake(f, src, dst, policy, es, x, p)
  {
    hide Consents, Orderly, LeaveToReplace, LeaveToMake, Move.Moved;
    if Rebase(p, src, dst) in f && !Same(f, g, Rebase(p, src, dst)) {
      ConsentMeans(f, src, dst, policy, es, p);
      Counterpart(f, g, src, dst, policy, p);
    }
    if p !in g {
      var x :| Under(src, x) && Under(x, p) && x in f && Consents(es, x) &&
        (x == p || !(IsDir(f, x) && IsDir(f, Rebase(x, src, dst))));
      ConsentMeans(f, src, dst, policy, es, x);
      assert LeaveToTake(f, src, dst, policy, es, x, p);
    }
  }

  /** Whoever does not agree loses nothing to a deletion that is not quiet and is not told to be;
      and, unless it is forced or told to be, no write-protected entry nor what that is in. */
  lemma DeleteNeedsYes(f: FS, g: FS, root: Path, protected: set<Path>, es: seq<Event>, x: Input, y: Input)
    requires Delete.DeletedBut(f, g, root, es) && Delete.ByConsent(f, g, root, protected, es)
    requires Heard(x, y, es) && 'Y' !in x.rest
    ensures !x.options.quiet && 'Q' !in x.rest ==> g == f
    ensures !x.options.force && 'F' !in x.rest ==>
      forall p, z :: Delete.WriteProtected(f, protected, z) && Under(root, p) && Under(p, z) && p in f ==> Same(f, g, p)
  {
    hide Heard, Delete.DeletedBut, Delete.ByConsent;
    if !x.options.quiet && 'Q' !in x.rest {
      forall p | p in f && Under(root, p) ensures p in g {
        if p !in g { var o := DeletedUnasked(f, g, root, protected, es, x, y, p); }
      }
      forall q ensures Same(f, g, q) { LeftAsItWas(f, g, root, es, q); }
      AllSame(f, g);
    }
    if !x.options.force && 'F' !in x.rest {
      forall p, z | Delete.WriteProtected(f, protected, z) && Under(root, p) && Under(p, z) && p in f
        ensures Same(f, g, p)
      {
        UnderTrans(root, p, z);
        if z !in g { var o := DeletedUnasked(f, g, root, protected, es, x, y, z); }
        WhatItIsIn(f, g, root, es, p, z);
      }
    }
  }

  lemma DeletedUnasked(f: FS, g: FS, root: Path, protected: set<Path>, es: seq<Event>, x: Input, y: Input, p: Path)
    returns (o: Options)
    requires Delete.ByConsent(f, g, root, protected, es) && Heard(x, y, es) && 'Y' !in x.rest
    requires p in f && Under(root, p) && p !in g
    ensures o.quiet && (Delete.WriteProtected(f, protected, p) ==> o.force)
    ensures 'Q' !in x.rest ==> o.quiet == x.options.quiet
    ensures 'F' !in x.rest ==> o.force == x.options.force
  {
    NoYes(x, y, es);
    hide Follows, Delete.AskedToDelete;
    o :| Weighed(p, o, false) in es;
    OptionsKept(x, o);
    QuietNeeded(f, protected, p, o);
  }

  lemma QuietNeeded(f: FS, protected: set<Path>, p: Path, o: Options)
    requires Delete.AskedToDelete(f, protected, p, o, false)
    ensures o.quiet && (Delete.WriteProtected(f, protected, p) ==> o.force)
  {
  }

  lemma LeftAsItWas(f: FS, g: FS, root: Path, es: seq<Event>, q: Path)
    requires Delete.DeletedBut(f, g, root, es) && (q in f && Under(root, q) ==> q in g)
    ensures Same(f, g, q)
  {
  }

  /** What an entry is in survives with it. */
  lemma WhatItIsIn(f: FS, g: FS, root: Path, es: seq<Event>, p: Path, z: Path)
    requires Delete.DeletedBut(f, g, root, es) && Under(root, p) && Under(p, z) && p in f && z in f && z in g
    ensures Same(f, g, p)
  {
    UnderTrans(root, p, z);
    Delete.SurvivorsClosed(Delete.Staying(f, root, es), z, p);
  }

  /** An entry that is gone has been agreed to, or was not asked about for the reason there is. */
  lemma DeleteByLeave(f: FS, g: FS, root: Path, protected: set<Path>, es: seq<Event>, p: Path)
    requires Delete.ByConsent(f, g, root, protected, es) && p in f && Under(root, p) && p !in g
    ensures Agreed(p, false) in es ||
      exists o :: Weighed(p, o, false) in es && o.quiet && (Delete.WriteProtected(f, protected, p) ==> o.force)
  {
    if o :| Weighed(p, o, false) in es { QuietNeeded(f, protected, p, o); }
  }
}
