/** do_delete and remove_empty_source_dirs of action.c: what survives the removal of a tree. */
module ActionDelete {
  import opened FileTree
  import opened ActionWorld
  import opened ActionConsent

  // ----- the shape of what is left

  /** Something at or below `p` has to stay. */
  ghost predicate Survives(stay: set<Path>, p: Path) {
    exists y :: y in stay && Under(p, y)
  }

  /** Of the tree below `root` there is left exactly what has to stay and what that is in, as it
      was; nothing else has changed. */
  ghost predicate Deleted(f: FS, g: FS, root: Path, stay: set<Path>) {
    && (forall p :: !Under(root, p) ==> Same(f, g, p))
    && (forall p :: Under(root, p) ==> if p in f && Survives(stay, p) then Same(f, g, p) else p !in g)
  }

  /** The same for the children in `done`; the others have not been touched. */
  ghost predicate Pruned(f: FS, g: FS, root: Path, done: set<Name>, stay: set<Path>) {
    && (forall p :: !Under(root, p) || p == root || p[|root|] !in done ==> Same(f, g, p))
    && (forall p :: Under(root, p) && p != root && p[|root|] in done ==>
          if p in f && Survives(stay, p) then Same(f, g, p) else p !in g)
    && Within(root, done, stay) && forall y :: y in stay ==> y in f
  }

  /** Survivors are closed under ancestors. */
  lemma SurvivorsClosed(stay: set<Path>, p: Path, q: Path)
    requires Survives(stay, p) && Under(q, p)
    ensures Survives(stay, q)
  {
  }

  lemma PrunedStart(f: FS, root: Path)
    ensures Pruned(f, f, root, {}, {})
  {
  }

  lemma PrunedChild(f: FS, g: FS, h: FS, root: Path, done: set<Name>, n: Name, stay: set<Path>, more: set<Path>)
    requires Pruned(f, g, root, done, stay) && n !in done
    requires Deleted(g, h, Child(root, n), more) && AllUnder(Child(root, n), more) && forall y :: y in more ==> y in g
    ensures Pruned(f, h, root, done + {n}, stay + more)
  {
    WithinChild(root, n, more);
    forall p | !Under(root, p) || p == root || p[|root|] !in done + {n}
      ensures Same(f, h, p)
    {
      assert !Under(Child(root, n), p);
    }
    forall p | Under(root, p) && p != root && p[|root|] in done + {n}
      ensures if p in f && Survives(stay + more, p) then Same(f, h, p) else p !in h
    {
      PrunedAt(f, g, h, root, done, n, stay, more, p);
    }
    forall y | y in more ensures y in f {
      assert Same(f, g, y) by { assert y[|root|] == n; }
    }
  }

  lemma PrunedAt(f: FS, g: FS, h: FS, root: Path, done: set<Name>, n: Name, stay: set<Path>, more: set<Path>, p: Path)
    requires Pruned(f, g, root, done, stay) && n !in done && Within(root, {n}, more)
    requires Deleted(g, h, Child(root, n), more)
    requires Under(root, p) && p != root && p[|root|] in done + {n}
    ensures if p in f && Survives(stay + more, p) then Same(f, h, p) else p !in h
  {
    SurvivesInChild(root, done, n, stay, more, p);
    hide Survives;
    if p[|root|] == n { UnderChild(root, p); } else { assert !Under(Child(root, n), p); }
  }

  lemma SurvivesInChild(root: Path, done: set<Name>, n: Name, stay: set<Path>, more: set<Path>, p: Path)
    requires Within(root, done, stay) && Within(root, {n}, more) && n !in done
    requires Under(root, p) && p != root && p[|root|] in done + {n}
    ensures Survives(stay + more, p) <==> if p[|root|] == n then Survives(more, p) else Survives(stay, p)
  {
  }

  /** Doing nothing is right for what has to stay altogether. */
  lemma PrunedRest(f: FS, g: FS, root: Path, done: set<Name>, todo: set<Name>, stay: set<Path>, rest: set<Path>)
    requires Pruned(f, g, root, done, stay) && done !! todo && Within(root, todo, rest)
    requires forall y :: y in rest ==> y in f
    requires forall y :: y in f && Under(root, y) && y != root && y[|root|] in todo ==> y in rest
    ensures Pruned(f, g, root, done + todo, stay + rest)
  {
    forall p | Under(root, p) && p != root && p[|root|] in done + todo
      ensures if p in f && Survives(stay + rest, p) then Same(f, g, p) else p !in g
    {
      if p[|root|] in todo {
        assert Same(f, g, p);
      } else {
        assert Survives(stay + rest, p) <==> Survives(stay, p);
      }
    }
  }

  /** Removing the directory itself: it can go exactly when nothing in it survived. */
  lemma DeletedRoot(f: FS, g: FS, root: Path, stay: set<Path>)
    requires WellFormed(f) && WellFormed(g) && root in f && Pruned(f, g, root, Listing(f, root), stay)
    ensures root in g && g[root] == f[root]
    ensures Listing(g, root) != {} ==> Deleted(f, g, root, stay)
    ensures Listing(g, root) == {} ==> Deleted(f, g - {root}, root, stay)
    ensures Deleted(f, g, root, stay + {root})
  {
    hide Survives, WellFormed;
    assert Same(f, g, root);
    RootSurvives(f, g, root, stay);
    PinnedRoot(stay, root);
    forall p | Under(root, p) && p != root
      ensures if p in f && Survives(stay, p) then Same(f, g, p) else p !in g
      ensures Survives(stay, p) <==> Survives(stay + {root}, p)
    {
      if p in f { ListingComplete(f, root, p); }
      PinnedElsewhere(stay, root, p);
    }
  }

  lemma PinnedRoot(stay: set<Path>, root: Path)
    ensures Survives(stay + {root}, root)
  {
    assert root in stay + {root} && Under(root, root);
  }

  lemma PinnedElsewhere(stay: set<Path>, root: Path, p: Path)
    requires Under(root, p) && p != root
    ensures Survives(stay, p) <==> Survives(stay + {root}, p)
  {
  }

  lemma RootSurvives(f: FS, g: FS, root: Path, stay: set<Path>)
    requires WellFormed(f) && WellFormed(g) && root in f && Pruned(f, g, root, Listing(f, root), stay)
    ensures Survives(stay, root) <==> Listing(g, root) != {}
  {
    if Survives(stay, root) {
      var y :| y in stay && Under(root, y);
      assert Under(y, y) && Survives(stay, y);
      ListingComplete(g, root, y);
    }
    if n :| n in Listing(g, root) {
      var c := Child(root, n);
      ListingSound(g, root, n);
      assert c in f by { assert c !in f && n in Listing(f, root) ==> c !in g; }
      ListingComplete(f, root, c);
      var y :| y in stay && Under(c, y);
      assert Under(root, y);
    }
  }

  // ----- what has to stay, from what has happened

  /** do_delete leaves the entry alone, or fails to remove it: it is refused or cannot be read,
      or something is that it is in; or it is in a directory that cannot be listed; or its
      removal is denied; or, when the parent has died, it was being worked on or its turn had
      not come. */
  ghost predicate Pins(es: seq<Event>, y: Path) {
    || (exists x :: Refused(x) in es && Under(x, y))
    || (exists x :: Unread(x) in es && Under(x, y))
    || (exists x :: Unlisted(x) in es && Under(x, y) && x != y)
    || Denied(y) in es
    || (exists x :: Died(x) in es && (Under(y, x) || Reached(y) !in es))
  }

  /** What has to stay of the tree below `root`. */
  ghost function Staying(f: FS, root: Path, es: seq<Event>): set<Path> {
    set y | y in f && Under(root, y) && Pins(es, y)
  }

  /** The same for the children in `names`. */
  ghost function StayingIn(f: FS, root: Path, names: set<Name>, es: seq<Event>): set<Path> {
    set y | y in f && Under(root, y) && y != root && y[|root|] in names && Pins(es, y)
  }

  /** Everything has had its turn, or has to stay. */
  ghost predicate Complete(f: FS, root: Path, names: set<Name>, es: seq<Event>) {
    forall y :: y in f && Under(root, y) && y != root && y[|root|] in names ==> Reached(y) in es || Pins(es, y)
  }

  /** What happened was about the children in `names`. */
  ghost predicate AllWithin(root: Path, names: set<Name>, es: seq<Event>) {
    forall e :: e in es ==> Under(root, e.path) && e.path != root && e.path[|root|] in names
  }

  /** What happens to a child decides about that child alone. */
  lemma PinsChild(f: FS, root: Path, done: set<Name>, n: Name, es: seq<Event>, more: seq<Event>, y: Path)
    requires AllWithin(root, done, es) && AllAt(Child(root, n), more) && n !in done && !Dead(es)
    requires Complete(f, root, done, es) && y in f && Under(root, y) && y != root && y[|root|] in done + {n}
    ensures Pins(es + more, y) <==> if y[|root|] == n then Pins(more, y) else Pins(es, y)
  {
    hide Complete;
    if y[|root|] == n {
      PinsLater(root, done, n, es, more, y);
    } else {
      assert Reached(y) in es || Pins(es, y) by { CompleteAt(f, root, done, es, y); }
      PinsBefore(root, n, es, more, y);
    }
  }

  lemma CompleteAt(f: FS, root: Path, names: set<Name>, es: seq<Event>, y: Path)
    requires Complete(f, root, names, es) && y in f && Under(root, y) && y != root && y[|root|] in names
    ensures Reached(y) in es || Pins(es, y)
  {
  }

  /** For the child, the other children's events mean nothing. */
  lemma PinsLater(root: Path, done: set<Name>, n: Name, es: seq<Event>, more: seq<Event>, y: Path)
    requires AllWithin(root, done, es) && n !in done && !Dead(es)
    requires Under(root, y) && y != root && y[|root|] == n
    ensures Pins(es + more, y) <==> Pins(more, y)
  {
    forall e | e in es ensures !Under(e.path, y) && e.path != y && !e.Died? {
      assert Under(root, e.path) && e.path != root && e.path[|root|] in done;
      assert e.Died? ==> Died(e.path) in es;
    }
    assert forall e :: e in es + more <==> e in es || e in more;
    assert Reached(y) in es + more <==> Reached(y) in more;
  }

  /** For the other children, the child's events mean nothing. */
  lemma PinsBefore(root: Path, n: Name, es: seq<Event>, more: seq<Event>, y: Path)
    requires AllAt(Child(root, n), more) && (Reached(y) in es || Pins(es, y)) && !Dead(es)
    requires Under(root, y) && y != root && y[|root|] != n
    ensures Pins(es + more, y) <==> Pins(es, y)
  {
    forall e | e in more ensures !Under(e.path, y) && !Under(y, e.path) {
      assert Under(Child(root, n), e.path) && e.path[|root|] == n;
    }
    assert forall e :: e in es + more <==> e in es || e in more;
    assert Reached(y) in es ==> Reached(y) in es + more;
  }

  lemma StayingChild(f: FS, g: FS, root: Path, done: set<Name>, n: Name, es: seq<Event>, more: seq<Event>)
    requires AllWithin(root, done, es) && AllAt(Child(root, n), more) && n !in done && !Dead(es)
    requires Complete(f, root, done, es) && forall p :: Under(Child(root, n), p) ==> Same(f, g, p)
    ensures StayingIn(f, root, done + {n}, es + more)
         == StayingIn(f, root, done, es) + Staying(g, Child(root, n), more)
  {
    hide Pins, Complete, AllWithin, AllAt, Dead;
    var c := Child(root, n);
    forall y
      ensures y in StayingIn(f, root, done + {n}, es + more) <==>
        y in StayingIn(f, root, done, es) || y in Staying(g, c, more)
    {
      if Under(c, y) { assert y[|root|] == n; }
      if y in f && Under(root, y) && y != root && y[|root|] in done + {n} {
        if y[|root|] == n { UnderChild(root, y); }
        PinsChild(f, root, done, n, es, more, y);
      }
    }
  }

  lemma CompleteChild(f: FS, g: FS, root: Path, done: set<Name>, n: Name, es: seq<Event>, more: seq<Event>)
    requires AllWithin(root, done, es) && AllAt(Child(root, n), more) && n !in done && !Dead(es)
    requires Complete(f, root, done, es) && forall p :: Under(Child(root, n), p) ==> Same(f, g, p)
    requires forall y :: y in g && Under(Child(root, n), y) ==> Reached(y) in more || Pins(more, y)
    ensures Complete(f, root, done + {n}, es + more) && AllWithin(root, done + {n}, es + more)
  {
    hide Pins, AllAt;
    forall y | y in f && Under(root, y) && y != root && y[|root|] in done + {n}
      ensures Reached(y) in es + more || Pins(es + more, y)
    {
      if y[|root|] == n { UnderChild(root, y); }
      PinsChild(f, root, done, n, es, more, y);
    }
    forall e | e in es + more ensures Under(root, e.path) && e.path != root && e.path[|root|] in done + {n} {
      if e in more { AtChild(root, n, more, e); }
    }
  }

  lemma AtChild(root: Path, n: Name, more: seq<Event>, e: Event)
    requires AllAt(Child(root, n), more) && e in more
    ensures Under(root, e.path) && e.path != root && e.path[|root|] == n
  {
    UnderTrans(root, Child(root, n), e.path);
  }

  /** The children whose turn has not come when the parent dies have to stay. */
  lemma StayingRest(f: FS, g: FS, root: Path, done: set<Name>, todo: set<Name>, es: seq<Event>)
    requires Dead(es) && AllWithin(root, done, es) && done !! todo
    requires Pruned(f, g, root, done, StayingIn(f, root, done, es))
    ensures Pruned(f, g, root, done + todo, StayingIn(f, root, done + todo, es))
    ensures Complete(f, root, done, es) ==> Complete(f, root, done + todo, es)
  {
    forall y | y in f && Under(root, y) && y != root && y[|root|] in todo ensures Pins(es, y) {
      var x :| Died(x) in es;
      assert Reached(y) !in es;
    }
    var rest := StayingIn(f, root, todo, es);
    PrunedRest(f, g, root, done, todo, StayingIn(f, root, done, es), rest);
    assert StayingIn(f, root, done, es) + rest == StayingIn(f, root, done + todo, es);
  }

  /** Nor is anything removed from a directory that cannot be listed. */
  lemma StayingAll(f: FS, root: Path)
    ensures var es := [Unlisted(root)];
      && AllBelow(root, es) && !Dead(es)
      && Pruned(f, f, root, Listing(f, root), StayingIn(f, root, Listing(f, root), es))
      && Complete(f, root, Listing(f, root), es)
  {
    var es, names := [Unlisted(root)], Listing(f, root);
    PrunedStart(f, root);
    forall y | y in f && Under(root, y) && y != root ensures Pins(es, y) {
      assert Unlisted(root) in es;
    }
    PrunedRest(f, f, root, {}, names, {}, StayingIn(f, root, names, es));
    assert {} + names == names && {} + StayingIn(f, root, names, es) == StayingIn(f, root, names, es);
  }

  // ----- the law

  /** The tree below `root` has been deleted but for what has to stay after the events `es`. */
  ghost predicate DeletedBut(f: FS, g: FS, root: Path, es: seq<Event>) {
    && Deleted(f, g, root, Staying(f, root, es)) && AllAt(root, es)
    && forall y :: y in f && Under(root, y) ==> Reached(y) in es || Pins(es, y)
  }

  /** An existing entry survives exactly when it has to stay itself or an entry in it survives. */
  lemma SurvivesRule(f: FS, root: Path, es: seq<Event>, p: Path)
    requires WellFormed(f) && p in f && Under(root, p)
    ensures Survives(Staying(f, root, es), p) <==>
      Pins(es, p) || exists n :: n in Listing(f, p) && Survives(Staying(f, root, es), Child(p, n))
  {
    hide Pins;
    var stay := Staying(f, root, es);
    if Survives(stay, p) && !Pins(es, p) {
      var y :| y in stay && Under(p, y);
      UnderChild(p, y);
      ListingComplete(f, p, y);
      assert Survives(stay, Child(p, y[|p|]));
    }
    if n :| n in Listing(f, p) && Survives(stay, Child(p, n)) {
      SurvivorsClosed(stay, Child(p, n), p);
    }
    if Pins(es, p) { assert p in stay && Under(p, p); }
  }

  /** In every run, whatever is answered and whatever fails: an entry is gone if and only if it
      was reached and neither it nor anything in it was refused, unreadable, in a directory
      that could not be listed or denied, or cut off by the end of the parent; and what is not
      gone is as it was. */
  lemma GoneIff(f: FS, g: FS, root: Path, es: seq<Event>, p: Path)
    requires DeletedBut(f, g, root, es) && p in f && Under(root, p)
    ensures p !in g <==> forall y :: y in f && Under(p, y) ==> Reached(y) in es && !Pins(es, y)
    ensures p in g ==> g[p] == f[p]
  {
    hide Pins;
    assert forall y :: y in f && Under(p, y) ==> Under(root, y);
    if p !in g {
      forall y | y in f && Under(p, y) ensures Reached(y) in es && !Pins(es, y) {
        assert Pins(es, y) ==> y in Staying(f, root, es);
      }
    }
  }

  /** When nothing fails and the parent lives: a refusal is the only reason to survive. */
  lemma OnlyRefusals(f: FS, g: FS, root: Path, es: seq<Event>, p: Path)
    requires DeletedBut(f, g, root, es) && p in f && Under(root, p)
    requires !Dead(es) && forall e :: e in es ==> e.Peaceful()
    ensures p in g <==> exists x, y :: Refused(x) in es && y in f && Under(x, y) && Under(p, y)
  {
    GoneIff(f, g, root, es, p);
    hide Deleted, Staying;
    forall y | y in f && Under(p, y)
      ensures Reached(y) in es || Pins(es, y)
      ensures Pins(es, y) <==> exists x :: Refused(x) in es && Under(x, y)
    {
      UnderTrans(root, p, y);
      RefusalsPin(es, y);
    }
    hide Pins, DeletedBut;
  }

  lemma RefusalsPin(es: seq<Event>, y: Path)
    requires !Dead(es) && forall e :: e in es ==> e.Peaceful()
    ensures Pins(es, y) <==> exists x :: Refused(x) in es && Under(x, y)
  {
  }

  // ----- do_delete

  /** Nobody answers, nothing fails, and nothing has to be asked. */
  ghost predicate Unattended(w: World)
    reads w
  {
    !w.faults && w.replies == [] && w.options.quiet && !w.exited && (w.options.force || w.protected == {})
  }

  /** The entry is left alone, for the last of these events, or it is not there. */
  ghost predicate LetBe(f: FS, root: Path, es: seq<Event>) {
    && es != [] && (forall e :: e in es[..|es| - 1] ==> e == Reached(root) || (e.Goes() && e.path == root))
    && var last := es[|es| - 1];
       last in {Died(root), Unread(root), Refused(root)} || (last == Reached(root) && root !in f)
  }

  /** The last event says how it ended. */
  lemma LastEvent(f: FS, root: Path, es: seq<Event>)
    requires LetBe(f, root, es) || Opening(root, es)
    ensures LetBe(f, root, es) ==>
      && (Dead(es) <==> es[|es| - 1].Died?) && (forall x :: Refused(x) in es <==> es[|es| - 1] == Refused(x))
      && (es[|es| - 1].Peaceful() ==> forall e :: e in es ==> e.Peaceful())
    ensures Opening(root, es) ==> !Dead(es) && (forall x :: Refused(x) !in es) && forall e :: e in es ==> e.Peaceful()
  {
    if LetBe(f, root, es) {
      var last := es[|es| - 1];
      assert last in es && forall e :: e in es <==> e in es[..|es| - 1] || e == last;
      if last.Died? { assert Died(last.path) in es; }
    }
  }

  lemma LeftAlone(f: FS, root: Path, es: seq<Event>)
    requires WellFormed(f) && LetBe(f, root, es)
    ensures DeletedBut(f, f, root, es)
  {
    var last := es[|es| - 1];
    assert last in es && forall e :: e in es ==> e == last || e in es[..|es| - 1];
    forall y | y in f && Under(root, y) ensures Pins(es, y) {
      Ancestors(f, root, y);
    }
    forall p | Under(root, p) && p in f ensures Survives(Staying(f, root, es), p) {
      assert p in Staying(f, root, es) && Under(p, p);
    }
  }

  /** A node that is not a directory, removed or not. */
  lemma DeletedFile(f: FS, root: Path, top: seq<Event>)
    requires WellFormed(f) && root in f && !IsDir(f, root) && Opening(root, top)
    ensures DeletedBut(f, f - {root}, root, top)
    ensures DeletedBut(f, f, root, top + [Denied(root)])
  {
    hide IsDir;
    forall p | Under(root, p) && p in f ensures p == root {
      Ancestors(f, root, p);
    }
    var es := top + [Denied(root)];
    assert es[|top|] == Denied(root) && forall e :: e in es ==> e in top || e == Denied(root);
    assert root in Staying(f, root, es) && Survives(Staying(f, root, es), root);
    assert !Pins(top, root);
    assert Reached(root) in es;
  }

  /** What happened was about the contents of the directory: its children, or that they could
      not be listed. */
  ghost predicate AllBelow(root: Path, es: seq<Event>) {
    forall e :: e in es ==> Under(root, e.path) && (e.path == root ==> e.Unlisted?)
  }

  lemma WithinBelow(root: Path, names: set<Name>, es: seq<Event>)
    requires AllWithin(root, names, es)
    ensures AllBelow(root, es)
  {
  }

  /** What the events of the contents and of the directory itself mean together. */
  lemma PinsBelow(root: Path, top: seq<Event>, es: seq<Event>, own: seq<Event>)
    requires AllBelow(root, es) && (own == [] || own == [Denied(root)]) && Opening(root, top)
    ensures var all := top + es + own;
      && AllAt(root, all) && (forall e :: e in es ==> e in all) && Reached(root) in all
      && (forall y :: Under(root, y) && y != root ==> (Pins(all, y) <==> Pins(es, y)))
      && (Pins(all, root) <==> own != [] || Dead(es))
  {
    hide Pins, Dead;
    var all := top + es + own;
    assert forall e :: e in all <==> e in top || e in es || (e == Denied(root) && own != []);
    forall y | Under(root, y) && y != root ensures Pins(all, y) <==> Pins(es, y) {
      PinsOther(root, es, all, y);
    }
    PinsRoot(root, es, all);
  }

  lemma PinsOther(root: Path, es: seq<Event>, all: seq<Event>, y: Path)
    requires y != root && forall e :: e in es ==> e in all
    requires forall e :: e in all ==> e in es || e == Reached(root) || e == Denied(root) || (e.Goes() && e.path == root)
    ensures Pins(all, y) <==> Pins(es, y)
  {
    assert Reached(y) in all <==> Reached(y) in es;
    assert Denied(y) in all <==> Denied(y) in es;
  }

  lemma PinsRoot(root: Path, es: seq<Event>, all: seq<Event>)
    requires AllBelow(root, es) && Reached(root) in all && forall e :: e in es ==> e in all
    requires forall e :: e in all ==> e in es || e == Reached(root) || e == Denied(root) || (e.Goes() && e.path == root)
    ensures Pins(all, root) <==> Denied(root) in all || Dead(es)
  {
    forall e | e in es ensures Under(e.path, root) ==> e.path == root && e.Unlisted? {
      assert Under(root, e.path);
    }
    if Dead(es) {
      var x :| Died(x) in es;
      assert Died(x) in all && Under(root, x);
    }
  }

  lemma StayingDir(f: FS, root: Path, top: seq<Event>, es: seq<Event>, own: seq<Event>)
    requires WellFormed(f) && root in f && AllBelow(root, es) && (own == [] || own == [Denied(root)])
    requires Opening(root, top)
    ensures var stay := StayingIn(f, root, Listing(f, root), es);
      Staying(f, root, top + es + own) == if own == [] && !Dead(es) then stay else stay + {root}
  {
    PinsBelow(root, top, es, own);
    hide Pins, AllBelow, AllAt, Dead, WellFormed, Listing, Opening;
    var stay, all := StayingIn(f, root, Listing(f, root), es), top + es + own;
    forall y
      ensures y in Staying(f, root, all) <==> y in stay || (y == root && !(own == [] && !Dead(es)))
    {
      if y in f && Under(root, y) && y != root { ListingComplete(f, root, y); }
    }
  }

  /** A directory, after its contents: `own` is what happens when it is to be removed itself. */
  lemma DeletedDir(f: FS, g: FS, h: FS, root: Path, top: seq<Event>, es: seq<Event>, own: seq<Event>)
    requires WellFormed(f) && WellFormed(g) && root in f && Opening(root, top)
    requires Pruned(f, g, root, Listing(f, root), StayingIn(f, root, Listing(f, root), es))
    requires Complete(f, root, Listing(f, root), es) && AllBelow(root, es)
    requires own == [] || own == [Denied(root)]
    requires h == if own == [] && !Dead(es) && Listing(g, root) == {} then g - {root} else g
    ensures DeletedBut(f, h, root, top + es + own)
  {
    hide Pins, AllBelow, AllAt, Dead, WellFormed, Listing, Pruned, Deleted, Staying, StayingIn, Complete, Opening;
    var all := top + es + own;
    DeletedRoot(f, g, root, StayingIn(f, root, Listing(f, root), es));
    PinsBelow(root, top, es, own);
    StayingDir(f, root, top, es, own);
    forall y | y in f && Under(root, y) ensures Reached(y) in all || Pins(all, y) {
      if y != root {
        ListingComplete(f, root, y);
        CompleteAt(f, root, Listing(f, root), es, y);
      }
    }
  }

  // ----- consent

  /** access(2) says that the entry, which is not a link, may not be written. */
  predicate WriteProtected(f: FS, protected: set<Path>, p: Path) {
    p in f && !f[p].kind.Link? && p in protected
  }

  /** Whether the user is asked about the entry: unless "quiet", and even then about one that is
      write-protected, unless "force". */
  predicate AskedToDelete(f: FS, protected: set<Path>, p: Path, o: Options, asked: bool) {
    p in f && asked == (!o.quiet || (WriteProtected(f, protected, p) && !o.force))
  }

  /** Nothing is gone without consent, and the user has been asked where that is due. */
  ghost predicate ByConsent(f: FS, g: FS, root: Path, protected: set<Path>, es: seq<Event>) {
    && (forall p :: p in f && Under(root, p) && p !in g ==> Consents(es, p))
    && AskedAll(f, root, protected, es)
  }

  ghost predicate AskedAll(f: FS, root: Path, protected: set<Path>, es: seq<Event>) {
    forall e :: e in es ==>
      && (e.Weighed? ==> Under(root, e.path) && AskedToDelete(f, protected, e.path, e.options, e.asked))
      && (e.Agreed? ==> !e.all)
  }

  lemma AskedMore(f: FS, root: Path, protected: set<Path>, es: seq<Event>, more: seq<Event>)
    requires AskedAll(f, root, protected, es) && AskedAll(f, root, protected, more)
    ensures AskedAll(f, root, protected, es + more)
  {
    hide AskedToDelete;
  }

  lemma AskedNone(f: FS, root: Path, protected: set<Path>, es: seq<Event>)
    requires forall e :: e in es ==> !e.Goes()
    ensures AskedAll(f, root, protected, es) && ByConsent(f, f, root, protected, es)
  {
  }

  /** One more child. */
  lemma ChildByConsent(f: FS, g: FS, h: FS, root: Path, n: Name, protected: set<Path>, es: seq<Event>, more: seq<Event>)
    requires ByConsent(f, g, root, protected, es) && ByConsent(g, h, Child(root, n), protected, more)
    requires forall p :: Under(Child(root, n), p) ==> Same(f, g, p)
    requires forall p :: !Under(Child(root, n), p) ==> Same(g, h, p)
    ensures ByConsent(f, h, root, protected, es + more)
  {
    hide Consents;
    var c := Child(root, n);
    forall p | p in f && Under(root, p) && p !in h ensures Consents(es + more, p) {
      ConsentsMore(es, more, p);
      assert if Under(c, p) then Same(f, g, p) else Same(g, h, p);
    }
    forall e | e in more
      ensures e.Weighed? ==> Under(root, e.path) && AskedToDelete(f, protected, e.path, e.options, e.asked)
      ensures e.Agreed? ==> !e.all
    {
      if e.Weighed? {
        UnderTrans(root, c, e.path);
        assert Same(f, g, e.path);
      }
    }
    AskedMore(f, root, protected, es, more);
  }

  /** The entry itself, after its contents. */
  lemma EntryByConsent(f: FS, g: FS, h: FS, root: Path, protected: set<Path>,
                       top: seq<Event>, es: seq<Event>, own: seq<Event>)
    requires AskedAll(f, root, protected, top) && Consents(top, root)
    requires ByConsent(f, g, root, protected, es) && (h == g || h == g - {root}) && forall e :: e in own ==> !e.Goes()
    ensures ByConsent(f, h, root, protected, top + es + own)
  {
    hide Consents, AskedAll;
    forall p | p in f && Under(root, p) && p !in h ensures Consents(top + es + own, p) {
      ConsentsMore(top, es, p);
      ConsentsMore(top + es, own, p);
    }
    AskedNone(f, root, protected, own);
    AskedMore(f, root, protected, top, es);
    AskedMore(f, root, protected, top + es, own);
  }

  // ----- the procedure

  /** do_delete.  What has happened decides exactly what is left; unless something failed or the
      parent died, that is what was refused and what it is in. */
  method DoDelete(w: World, path: Path) returns (ghost es: seq<Event>, ghost no: set<Path>)
    requires WellFormed(w.fs) && path != [] && !w.exited
    modifies w
    ensures WellFormed(w.fs) && w.events == old(w.events) + es
    ensures DeletedBut(old(w.fs), w.fs, path, es)
    ensures w.exited <==> Dead(es)
    ensures w.refused == old(w.refused) + no && forall x :: x in no <==> Refused(x) in es
    ensures !w.faults ==> forall e :: e in es ==> e.Peaceful()
    ensures old(Unattended(w)) ==> Unattended(w) && no == {}
    // Nothing is gone without consent, and the user is asked when that is due.
    ensures ByConsent(old(w.fs), w.fs, path, w.protected, es) && Heard(old(w.InputNow()), w.InputNow(), es)
    decreases |Subtree(w.fs, path)|, 2
  {
    hide DeletedBut, WellFormed, Under, Subtree, Listing, LetBe, ByConsent, AskedAll, Heard, Consents, Opening, Dead;
    ghost var f, input := w.fs, w.InputNow();
    var go;
    go, es, no := MayDelete(w, path);
    if !go {
      LeftAlone(f, path, es);
      Untouched(f, path, w.protected, es);
      return;
    }
    LastEvent(f, path, es);
    assert no == {};
    if IsDir(w.fs, path) {
      ghost var top, heard := es, w.InputNow();
      es, no := DeleteDir(w, path, top);
      HeardThen(input, heard, w.InputNow(), top, es);
      DeadMore(top, es);
      es := top + es;
    } else {
      ghost var top := es;
      DeletedFile(f, path, top);
      var outcome := w.Remove(path);
      ghost var own: seq<Event> := if outcome == Failed then [Denied(path)] else [];
      AskedNone(f, path, w.protected, []);
      assert top + [] + own == top + own && top + [] == top;
      EntryByConsent(f, f, w.fs, path, w.protected, top, [], own);
      es := top + own;
      if outcome == Failed { HeardElse(input, w.InputNow(), top, Denied(path)); }
      DeadMore(top, own);
      NotDead(own);
    }
  }

  lemma Untouched(f: FS, root: Path, protected: set<Path>, es: seq<Event>)
    requires AskedAll(f, root, protected, es)
    ensures ByConsent(f, f, root, protected, es)
  {
  }

  /** Its first half: look at the entry and ask about it. */
  method MayDelete(w: World, path: Path) returns (go: bool, ghost es: seq<Event>, ghost no: set<Path>)
    requires !w.exited
    modifies w
    ensures w.fs == old(w.fs) && w.events == old(w.events) + es
    ensures if go then !w.exited && path in w.fs && Opening(path, es) && Consents(es, path) else LetBe(w.fs, path, es)
    ensures AskedAll(w.fs, path, w.protected, es) && Heard(old(w.InputNow()), w.InputNow(), es)
    ensures w.exited <==> Dead(es)
    ensures w.refused == old(w.refused) + no && forall x :: x in no <==> Refused(x) in es
    ensures !w.faults ==> forall e :: e in es ==> e.Peaceful()
    ensures old(Unattended(w)) ==> Unattended(w) && no == {} && go == (path in w.fs)
  {
    hide Dead, Heard, Consents, AskedAll, Toggled, ReadAnswer, Question, LetBe, Opening;
    no := {};
    ghost var f, input := w.fs, w.InputNow();
    ghost var n := w.CheckFlags(path);
    ghost var first, more: seq<Event> := if w.exited then Died(path) else Reached(path), [];
    HeardFlags(input, w.InputNow(), n, first);
    ghost var heard := w.InputNow();
    go := !w.exited;
    if go {
      go := w.Lstat(path);
      if !go && path in w.fs {
        more := [Unread(path)];
        HeardElse(input, heard, [first], Unread(path));
      }
    }
    if go {
      go, more, no := AskToDelete(w, path);
      HeardThen(input, heard, w.InputNow(), [first], more);
    }
    es := [first] + more;
    assert more == [] ==> es == [first];
    Reading(f, path, w.protected, first, more);
    LastEvent(w.fs, path, es);
  }

  /** The question, if there is one, and its answer. */
  ghost predicate Question(f: FS, protected: set<Path>, path: Path, more: seq<Event>) {
    && 1 <= |more| <= 2 && more[0].Weighed? && more[0].path == path
    && AskedToDelete(f, protected, path, more[0].options, more[0].asked)
    && if |more| == 1 then !more[0].asked
       else more[1] in {Agreed(path, false), Refused(path), Died(path)}
  }

  method AskToDelete(w: World, path: Path) returns (go: bool, ghost more: seq<Event>, ghost no: set<Path>)
    requires !w.exited && path in w.fs
    modifies w
    ensures w.fs == old(w.fs) && w.events == old(w.events) + more && more != []
    ensures more[|more| - 1].Peaceful() && (more[|more| - 1].Refused? ==> more[|more| - 1] == Refused(path))
    ensures Question(w.fs, w.protected, path, more) && Heard(old(w.InputNow()), w.InputNow(), more)
    ensures go <==> more[|more| - 1].Goes()
    ensures w.exited <==> more[|more| - 1].Died?
    ensures w.refused == old(w.refused) + no && no == if more[|more| - 1].Refused? then {path} else {}
    ensures old(Unattended(w)) ==> Unattended(w) && go
  {
    hide Heard, ReadAnswer;
    ghost var input := w.InputNow();
    var writeProt := !w.fs[path].kind.Link? && path in w.protected;
    if (writeProt && !w.options.force) || !w.options.quiet {
      ghost var answer := ReadAnswer(input.options, input.rest, false).0;
      go := w.Reply(writeProt && !w.options.force, path);
      no := if go || w.exited then {} else {path};
      more := Answered(input.options, answer, path);
      HeardAnswer(input, false, path);
    } else {
      w.Weigh(path, false);
      go, no, more := true, {}, [Weighed(path, w.options, false)];
      HeardUnasked(input, path);
    }
  }

  /** What the first half leaves on record. */
  lemma Reading(f: FS, path: Path, protected: set<Path>, first: Event, more: seq<Event>)
    requires first == Reached(path) || (first == Died(path) && more == [])
    requires more == [] || more == [Unread(path)] || Question(f, protected, path, more)
    requires more == [] ==> first.Died? || path !in f
    ensures var es := [first] + more;
      && AskedAll(f, path, protected, es)
      && if more != [] && more[|more| - 1].Goes() then Opening(path, es) && Consents(es, path) else LetBe(f, path, es)
  {
    hide AskedToDelete;
    var es := [first] + more;
    if |more| == 2 { assert es == [first, more[0], more[1]]; }
    if more != [] && more[|more| - 1].Goes() {
      assert es[|es| - 1] in es && es[0] in es;
    }
  }

  /** Its branch for a directory, after the entry has been reached. */
  method DeleteDir(w: World, path: Path, ghost top: seq<Event>) returns (ghost es: seq<Event>, ghost no: set<Path>)
    requires WellFormed(w.fs) && path != [] && IsDir(w.fs, path) && !w.exited
    requires Opening(path, top) && Consents(top, path) && AskedAll(w.fs, path, w.protected, top)
    modifies w
    ensures WellFormed(w.fs) && w.events == old(w.events) + es
    ensures DeletedBut(old(w.fs), w.fs, path, top + es)
    ensures ByConsent(old(w.fs), w.fs, path, w.protected, top + es) && Heard(old(w.InputNow()), w.InputNow(), es)
    ensures w.exited <==> Dead(es)
    ensures w.refused == old(w.refused) + no && forall x :: x in no <==> Refused(x) in es
    ensures !w.faults ==> forall e :: e in es ==> e.Peaceful()
    ensures old(Unattended(w)) ==> Unattended(w) && no == {}
    decreases |Subtree(w.fs, path)|, 1
  {
    hide DeletedBut, Pruned, Pins, Complete, AllBelow, AllAt, WellFormed, Under, Subtree, StayingIn, Listing, Heard,
         Consents, AskedAll, ByConsent, Opening, Dead;
    ghost var f, input := w.fs, w.InputNow();
    ghost var more;
    more, no := DeleteContents(w, path);
    ghost var g, own: seq<Event> := w.fs, [];
    RootThere(f, g, path, more);
    if !w.exited {
      var outcome := w.Remove(path);
      if w.events != old(w.events) + more {
        own := [Denied(path)];
        HeardElse(input, w.InputNow(), more, Denied(path));
      }
    }
    DeletedDir(f, g, w.fs, path, top, more, own);
    EntryByConsent(f, g, w.fs, path, w.protected, top, more, own);
    DeadMore(more, own);
    assert Dead(own) == false by { NotDead(own); }
    es := more + own;
    assert more + [] == more && top + (more + own) == top + more + own;
  }

  lemma NotDead(own: seq<Event>)
    requires forall e :: e in own ==> !e.Died?
    ensures !Dead(own)
  {
  }

  lemma RootThere(f: FS, g: FS, root: Path, es: seq<Event>)
    requires root in f && Pruned(f, g, root, Listing(f, root), StayingIn(f, root, Listing(f, root), es))
    ensures root in g && g[root] == f[root]
  {
    assert Same(f, g, root);
  }

  /** for_dir_contents(do_delete, path, path), in any order of the listing. */
  method DeleteContents(w: World, path: Path) returns (ghost es: seq<Event>, ghost no: set<Path>)
    requires WellFormed(w.fs) && IsDir(w.fs, path) && !w.exited
    modifies w
    ensures WellFormed(w.fs) && w.events == old(w.events) + es
    ensures var names := Listing(old(w.fs), path);
      && Pruned(old(w.fs), w.fs, path, names, StayingIn(old(w.fs), path, names, es))
      && Complete(old(w.fs), path, names, es) && AllBelow(path, es)
    ensures ByConsent(old(w.fs), w.fs, path, w.protected, es) && Heard(old(w.InputNow()), w.InputNow(), es)
    ensures w.exited <==> Dead(es)
    ensures w.refused == old(w.refused) + no && forall x :: x in no <==> Refused(x) in es
    ensures !w.faults ==> forall e :: e in es ==> e.Peaceful()
    ensures old(Unattended(w)) ==> Unattended(w) && no == {}
    decreases |Subtree(w.fs, path)|, 0
  {
    hide DeletedBut, Pruned, Pins, Complete, AllWithin, AllBelow, AllAt, WellFormed, Same, Under, Listing, Subtree,
         StayingIn, Dead, Lists, Heard, ByConsent;
    ghost var f, input, all := w.fs, w.InputNow(), Listing(w.fs, path);
    HeardNothing(input);
    AskedNone(f, path, w.protected, []);
    es, no := [], {};
    var ok := w.OpenDir(path);
    if !ok {
      es := [Unlisted(path)];
      StayingAll(f, path);
      AskedNone(f, path, w.protected, es);
      assert [] + es == es;
      HeardElse(input, input, [], Unlisted(path));
      return;
    }
    var names := w.ReadDir(path);
    ghost var done: set<Name> := {};
    NothingDone(f, path);
    var i := 0;
    assert names[0..] == names && all - done == all;
    while i < |names| && !w.exited
      invariant 0 <= i <= |names| && Lists(names[i..], all - done) && done <= all
      invariant WellFormed(w.fs) && w.events == old(w.events) + es
      invariant Deleting(f, w.fs, path, done, es)
      invariant ByConsent(f, w.fs, path, w.protected, es) && Heard(input, w.InputNow(), es)
      invariant w.exited <==> Dead(es)
      invariant w.refused == old(w.refused) + no && forall x :: x in no <==> Refused(x) in es
      invariant !w.faults ==> forall e :: e in es ==> e.Peaceful()
      invariant old(Unattended(w)) ==> Unattended(w) && no == {}
      decreases |names| - i
    {
      var n := names[i];
      NextName(names, i, all - done);
      ghost var g, heard := w.fs, w.InputNow();
      WaitingChild(f, g, path, done, n, es);
      ghost var more, no1 := DoDelete(w, Child(path, n));
      NextByConsent(f, g, w.fs, path, done, n, w.protected, es, more);
      HeardThen(input, heard, w.InputNow(), es, more);
      DeletingChild(f, g, w.fs, path, done, n, es, more);
      DeadMore(es, more);
      assert all - done - {n} == all - (done + {n});
      done, es, no, i := done + {n}, es + more, no + no1, i + 1;
    }
    if i == |names| {
      ListsNext(names[i..], all - done);
      assert done == all by { assert forall n :: n in all ==> n in done || n in all - done; }
    }
    DeletedAll(f, w.fs, path, done, es);
  }

  // ----- the loop

  /** The children in `done` have been deleted but for what has to stay. */
  ghost predicate Deleting(f: FS, g: FS, root: Path, done: set<Name>, es: seq<Event>) {
    Pruned(f, g, root, done, StayingIn(f, root, done, es)) && Complete(f, root, done, es) && AllWithin(root, done, es)
  }

  lemma NothingDone(f: FS, root: Path)
    ensures Deleting(f, f, root, {}, []) && !Dead([])
  {
    assert StayingIn(f, root, {}, []) == {};
  }

  lemma NextByConsent(f: FS, g: FS, h: FS, root: Path, done: set<Name>, n: Name, protected: set<Path>,
                      es: seq<Event>, more: seq<Event>)
    requires n !in done && Deleting(f, g, root, done, es) && DeletedBut(g, h, Child(root, n), more)
    requires ByConsent(f, g, root, protected, es) && ByConsent(g, h, Child(root, n), protected, more)
    ensures ByConsent(f, h, root, protected, es + more)
  {
    hide ByConsent, Pruned, Complete, AllWithin, AllAt, Pins, Staying;
    PrunedSame(f, g, root, done, n, StayingIn(f, root, done, es));
    ChildByConsent(f, g, h, root, n, protected, es, more);
  }

  lemma DeadMore(es: seq<Event>, more: seq<Event>)
    ensures Dead(es + more) <==> Dead(es) || Dead(more)
  {
    assert forall e :: e in es + more <==> e in es || e in more;
  }

  lemma WaitingChild(f: FS, g: FS, root: Path, done: set<Name>, n: Name, es: seq<Event>)
    requires root in f && n in Listing(f, root) && n !in done && Deleting(f, g, root, done, es)
    ensures Child(root, n) != [] && |Subtree(g, Child(root, n))| < |Subtree(f, root)|
  {
    PrunedSame(f, g, root, done, n, StayingIn(f, root, done, es));
    SmallerSubtree(f, g, root, n);
  }

  lemma PrunedSame(f: FS, g: FS, root: Path, done: set<Name>, n: Name, stay: set<Path>)
    requires n !in done && Pruned(f, g, root, done, stay)
    ensures forall p :: Under(Child(root, n), p) ==> Same(f, g, p)
  {
    forall p | Under(Child(root, n), p) ensures Same(f, g, p) { assert p[|root|] == n; }
  }

  lemma DeletingChild(f: FS, g: FS, h: FS, root: Path, done: set<Name>, n: Name, es: seq<Event>, more: seq<Event>)
    requires Deleting(f, g, root, done, es) && !Dead(es) && n !in done
    requires DeletedBut(g, h, Child(root, n), more)
    ensures Deleting(f, h, root, done + {n}, es + more)
  {
    hide Pins, Complete, AllWithin, AllAt, Pruned, Deleted, Dead;
    var c := Child(root, n);
    var stay, rest := StayingIn(f, root, done, es), Staying(g, c, more);
    PrunedSame(f, g, root, done, n, stay);
    assert AllUnder(c, rest);
    PrunedChild(f, g, h, root, done, n, stay, rest);
    StayingChild(f, g, root, done, n, es, more);
    CompleteChild(f, g, root, done, n, es, more);
  }

  lemma DeletedAll(f: FS, g: FS, root: Path, done: set<Name>, es: seq<Event>)
    requires Deleting(f, g, root, done, es) && done <= Listing(f, root) && (Dead(es) || done == Listing(f, root))
    ensures var names := Listing(f, root);
      Pruned(f, g, root, names, StayingIn(f, root, names, es)) && Complete(f, root, names, es) && AllBelow(root, es)
  {
    hide Pins, Complete, Pruned, Dead, Listing, StayingIn;
    WithinBelow(root, done, es);
    if Dead(es) {
      StayingRest(f, g, root, done, Listing(f, root) - done, es);
      assert done + (Listing(f, root) - done) == Listing(f, root);
    }
  }

  // ----- remove_empty_source_dirs

  /** It leaves everything that is not a directory, what cannot be read or listed with all that
      is in it, and a directory whose removal is denied. */
  ghost predicate Keeps(f: FS, es: seq<Event>, y: Path) {
    || !IsDir(f, y)
    || (exists x :: Unread(x) in es && Under(x, y))
    || (exists x :: Unlisted(x) in es && Under(x, y))
    || Denied(y) in es
  }

  /** What it leaves of the tree below `root`, apart from what that is in. */
  ghost function Keeping(f: FS, root: Path, es: seq<Event>): set<Path> {
    set y | y in f && Under(root, y) && Keeps(f, es, y)
  }

  ghost function KeepingIn(f: FS, root: Path, names: set<Name>, es: seq<Event>): set<Path> {
    set y | y in f && Under(root, y) && y != root && y[|root|] in names && Keeps(f, es, y)
  }

  /** The children in `done` have been dealt with. */
  ghost predicate Emptying(f: FS, g: FS, root: Path, done: set<Name>, es: seq<Event>) {
    Pruned(f, g, root, done, KeepingIn(f, root, done, es)) && AllWithin(root, done, es)
  }

  lemma KeepsChild(f: FS, g: FS, root: Path, done: set<Name>, n: Name, es: seq<Event>, more: seq<Event>, y: Path)
    requires AllWithin(root, done, es) && AllAt(Child(root, n), more) && n !in done
    requires Under(root, y) && y != root && y[|root|] in done + {n} && (y[|root|] == n ==> Same(f, g, y))
    ensures Keeps(f, es + more, y) <==> if y[|root|] == n then Keeps(g, more, y) else Keeps(f, es, y)
  {
    assert forall e :: e in es + more <==> e in es || e in more;
    forall e | e in more ensures Under(root, e.path) && e.path != root && e.path[|root|] == n {
      AtChild(root, n, more, e);
    }
    forall e | e in es + more && Under(e.path, y) ensures e.path[|root|] == y[|root|] {
    }
  }

  lemma EmptyingChild(f: FS, g: FS, h: FS, root: Path, done: set<Name>, n: Name, es: seq<Event>, more: seq<Event>)
    requires Emptying(f, g, root, done, es) && n !in done
    requires Deleted(g, h, Child(root, n), Keeping(g, Child(root, n), more)) && AllAt(Child(root, n), more)
    ensures Emptying(f, h, root, done + {n}, es + more)
  {
    hide Keeps, AllWithin, AllAt, Pruned, Deleted;
    var c := Child(root, n);
    var stay, rest := KeepingIn(f, root, done, es), Keeping(g, c, more);
    PrunedSame(f, g, root, done, n, stay);
    assert AllUnder(c, rest);
    PrunedChild(f, g, h, root, done, n, stay, rest);
    forall y
      ensures y in KeepingIn(f, root, done + {n}, es + more) <==> y in stay || y in rest
    {
      if Under(c, y) { assert y[|root|] == n; }
      if y in f && Under(root, y) && y != root && y[|root|] in done + {n} {
        if y[|root|] == n { UnderChild(root, y); }
        KeepsChild(f, g, root, done, n, es, more, y);
      }
    }
    assert KeepingIn(f, root, done + {n}, es + more) == stay + rest;
    WithinMore(root, done, n, es, more);
  }

  lemma WithinMore(root: Path, done: set<Name>, n: Name, es: seq<Event>, more: seq<Event>)
    requires AllWithin(root, done, es) && AllAt(Child(root, n), more)
    ensures AllWithin(root, done + {n}, es + more)
  {
    forall e | e in es + more ensures Under(root, e.path) && e.path != root && e.path[|root|] in done + {n} {
      if e in more { AtChild(root, n, more, e); }
    }
  }

  lemma EmptyingStart(f: FS, root: Path)
    ensures Emptying(f, f, root, {}, [])
  {
    assert KeepingIn(f, root, {}, []) == {};
  }

  /** The directory itself goes when it is empty then and its removal is not denied. */
  lemma EmptiedDir(f: FS, g: FS, h: FS, root: Path, es: seq<Event>, own: seq<Event>)
    requires WellFormed(f) && WellFormed(g) && IsDir(f, root) && Emptying(f, g, root, Listing(f, root), es)
    requires own == [] || own == [Denied(root)]
    requires h == if own == [] && Listing(g, root) == {} then g - {root} else g
    ensures Deleted(f, h, root, Keeping(f, root, es + own)) && AllAt(root, es + own)
  {
    hide WellFormed, Listing, Pruned, Deleted;
    var stay, all := KeepingIn(f, root, Listing(f, root), es), es + own;
    DeletedRoot(f, g, root, stay);
    assert forall e :: e in all <==> e in es || (e == Denied(root) && own != []);
    forall y
      ensures y in Keeping(f, root, all) <==> y in stay || (y == root && own != [])
    {
      if y in f && Under(root, y) && y != root { ListingComplete(f, root, y); }
      KeepsOwn(f, root, es, own, y);
    }
    assert Keeping(f, root, all) == if own == [] then stay else stay + {root};
  }

  lemma KeepsOwn(f: FS, root: Path, es: seq<Event>, own: seq<Event>, y: Path)
    requires IsDir(f, root) && AllWithin(root, Listing(f, root), es) && (own == [] || own == [Denied(root)])
    ensures y != root ==> (Keeps(f, es + own, y) <==> Keeps(f, es, y))
    ensures Keeps(f, es + own, root) <==> own != []
  {
    assert forall e :: e in es + own <==> e in es || (e == Denied(root) && own != []);
    forall e | e in es ensures !Under(e.path, root) {
      assert Under(root, e.path) && e.path != root;
    }
  }

  /** Left alone: it is not a directory, or cannot be read or listed. */
  lemma KeptAltogether(f: FS, root: Path, es: seq<Event>)
    requires WellFormed(f) && root in f
    requires (es == [] && !IsDir(f, root)) || es == [Unread(root)] || es == [Unlisted(root)]
    ensures Deleted(f, f, root, Keeping(f, root, es)) && AllAt(root, es)
  {
    if es != [] { assert es[0] in es; }
    forall p | Under(root, p) && p in f ensures Survives(Keeping(f, root, es), p) {
      Ancestors(f, root, p);
      assert p in Keeping(f, root, es) && Under(p, p);
    }
  }

  /** remove_empty_source_dirs, called on a directory. */
  method RemoveEmptyDirs(w: World, path: Path) returns (ghost es: seq<Event>)
    requires WellFormed(w.fs) && path != [] && IsDir(w.fs, path)
    modifies w`fs, w`events
    ensures WellFormed(w.fs) && w.events == old(w.events) + es
    ensures Deleted(old(w.fs), w.fs, path, Keeping(old(w.fs), path, es)) && AllAt(path, es)
    ensures !w.faults ==> es == []
    decreases |Subtree(w.fs, path)|
  {
    hide Deleted, Emptying, Keeping, WellFormed, AllAt, Under, Listing, Subtree, Lists;
    ghost var f, all := w.fs, Listing(w.fs, path);
    es := [];
    var ok := w.OpenDir(path);
    if !ok {
      es := [Unlisted(path)];
      KeptAltogether(f, path, es);
      return;
    }
    var names := w.ReadDir(path);
    ghost var done: set<Name> := {};
    EmptyingStart(f, path);
    assert names[0..] == names && all - done == all;
    for i := 0 to |names|
      invariant Lists(names[i..], all - done) && done <= all
      invariant WellFormed(w.fs) && w.events == old(w.events) + es && (!w.faults ==> es == [])
      invariant Emptying(f, w.fs, path, done, es)
    {
      var n := names[i];
      var child := Child(path, n);
      NextName(names, i, all - done);
      ghost var g := w.fs;
      WaitingDir(f, g, path, done, n, es);
      ghost var more: seq<Event> := [];
      var found := w.Lstat(child);
      if !found { more := [Unread(child)]; }
      if found && IsDir(w.fs, child) {
        more := RemoveEmptyDirs(w, child);
      } else {
        KeptAltogether(g, child, more);
      }
      EmptyingChild(f, g, w.fs, path, done, n, es, more);
      assert all - done - {n} == all - (done + {n});
      done, es := done + {n}, es + more;
    }
    ListsNext(names[|names|..], all - done);
    assert done == all by { assert forall n :: n in all ==> n in done || n in all - done; }
    ghost var g, own: seq<Event> := w.fs, [];
    RootStands(f, g, path, es);
    var outcome := w.Remove(path);
    if w.events != old(w.events) + es { own := [Denied(path)]; }
    EmptiedDir(f, g, w.fs, path, es, own);
    es := es + own;
  }

  lemma WaitingDir(f: FS, g: FS, root: Path, done: set<Name>, n: Name, es: seq<Event>)
    requires root in f && n in Listing(f, root) && n !in done && Emptying(f, g, root, done, es)
    ensures var c := Child(root, n); c != [] && c in g && |Subtree(g, c)| < |Subtree(f, root)|
  {
    PrunedSame(f, g, root, done, n, KeepingIn(f, root, done, es));
    ListingSound(f, root, n);
    assert Under(Child(root, n), Child(root, n));
    SmallerSubtree(f, g, root, n);
  }

  lemma RootStands(f: FS, g: FS, root: Path, es: seq<Event>)
    requires root in f && Emptying(f, g, root, Listing(f, root), es)
    ensures root in g && g[root] == f[root]
  {
    assert Same(f, g, root);
  }

  /** In every run, exactly the directories are removed that have nothing at or below them that
      is not a directory, cannot be read or listed, or whose removal is denied. */
  lemma EmptyDirsIff(f: FS, g: FS, root: Path, es: seq<Event>, p: Path)
    requires Deleted(f, g, root, Keeping(f, root, es)) && p in f && Under(root, p)
    ensures p in g <==> exists y :: y in f && Under(p, y) && Keeps(f, es, y)
  {
    hide Keeps;
    if y :| y in f && Under(p, y) && Keeps(f, es, y) {
      assert y in Keeping(f, root, es);
    }
  }

  /** Without failures: the directories that have nothing but directories below them. */
  lemma EmptyDirsExact(f: FS, g: FS, root: Path, p: Path)
    requires Deleted(f, g, root, Keeping(f, root, [])) && p in f && Under(root, p)
    ensures p in g <==> exists y :: y in f && Under(p, y) && !IsDir(f, y)
  {
    EmptyDirsIff(f, g, root, [], p);
    assert forall y :: Keeps(f, [], y) <==> !IsDir(f, y);
  }
}
