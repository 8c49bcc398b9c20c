/** How do_copy2 and do_move2 of action.c deal with what already exists at the destination;
    the two procedures share these lines. */
module ActionConflict {
  import opened FileTree
  import opened ActionWorld
  import opened ActionConsent

  /** What stands at `q` keeps `p` from replacing it, whoever is asked: a directory with
      something in it that a non-directory cannot replace, or, under "newer", something that
      is not older. */
  ghost predicate Blocked(f: FS, p: Path, q: Path, policy: Policy) {
    && p in f && q in f && !IsDir(f, p)
    && (Full(f, p, q) || (policy == UpdateNewer && f[p].mtime <= f[q].mtime))
  }

  /** A non-directory cannot replace a directory with something in it. */
  ghost predicate Full(f: FS, p: Path, q: Path) {
    p in f && !IsDir(f, p) && IsDir(f, q) && Listing(f, q) != {}
  }

  /** Only a policy of asking changes, when the user answers for all. */
  predicate PolicyNow(policy: Policy, now: Policy) {
    now == policy || (policy == Ask && (now == ReplaceAll || now == SkipExisting))
  }

  /** Nobody answers, nothing fails, and the policy decides. */
  ghost predicate Automatic(w: World)
    reads w
  {
    && !w.faults && w.replies == [] && w.options.quiet && !w.exited
    && w.policy != Ask
  }

  /** Why the run stops at an entry. */
  ghost predicate Stopping(f: FS, path: Path, dst: Path, policy: Policy, es: seq<Event>) {
    || path !in f || Blocked(f, path, dst, policy)
    || Refused(path) in es || Unread(path) in es || Denied(dst) in es || Died(path) in es
  }

  /** The policies that let an existing entry be replaced without a question. */
  predicate Standing(policy: Policy) {
    policy == ReplaceAll || policy == UpdateNewer
  }

  /** Whether the user is asked about `p` with the options `o`: about what stands at the
      destination, unless the policy answers or a directory is merged into one under "merge";
      and about what does not, unless "quiet".  `all` says that the user has answered for all
      conflicts before. */
  ghost predicate AskedRightly(f: FS, p: Path, q: Path, policy: Policy, all: bool, o: Options, asked: bool) {
    var merging := IsDir(f, p) && IsDir(f, q) && o.merge;
    p in f && if q in f then (asked ==> policy == Ask && !merging) && (!asked ==> Standing(policy) || all || merging)
    else asked == !o.quiet
  }

  /** The same over a run: whether the user has answered for all is on record, too. */
  ghost predicate Orderly(f: FS, src: Path, dst: Path, policy: Policy, es: seq<Event>) {
    forall i :: 0 <= i < |es| && es[i].Weighed? ==>
      && Under(src, es[i].path)
      && AskedRightly(f, es[i].path, Rebase(es[i].path, src, dst), policy, ForAll(es[..i]), es[i].options, es[i].asked)
  }

  lemma OneOrderly(f: FS, src: Path, dst: Path, policy: Policy, es: seq<Event>)
    requires OneAsked(f, src, dst, policy, es)
    ensures Orderly(f, src, dst, policy, es)
  {
    assert Rebase(src, src, dst) == dst;
    forall i | 0 <= i < |es| && es[i].Weighed?
      ensures es[i].path == src
      ensures AskedRightly(f, src, dst, policy, ForAll(es[..i]), es[i].options, es[i].asked)
    {
      assert es[i] in es;
    }
  }

  /** What is asked rightly later on, in a part of the trees that has not been touched. */
  lemma RightlyLater(f: FS, g: FS, p: Path, q: Path, policy: Policy, now: Policy, before: bool, all: bool,
                     o: Options, asked: bool)
    requires AskedRightly(g, p, q, now, all, o, asked) && PolicyNow(policy, now)
    requires Same(f, g, p) && Same(f, g, q) && (now == ReplaceAll ==> policy == ReplaceAll || before)
    ensures AskedRightly(f, p, q, policy, before || all, o, asked)
  {
  }

  lemma AskedThere(f: FS, p: Path, q: Path, policy: Policy, all: bool, o: Options, asked: bool)
    requires AskedRightly(f, p, q, policy, all, o, asked)
    ensures p in f
  {
  }

  /** The questions of a part of the run, which begins with the policy `now`. */
  lemma OrderlyThen(f: FS, g: FS, src: Path, dst: Path, c: Path, d: Path, policy: Policy, now: Policy,
                    es: seq<Event>, more: seq<Event>)
    requires Orderly(f, src, dst, policy, es) && Orderly(g, c, d, now, more) && PolicyNow(policy, now)
    requires now == ReplaceAll ==> policy == ReplaceAll || ForAll(es)
    requires forall e :: e in more && e.Weighed? && Under(c, e.path) && e.path in g ==>
      && Under(src, e.path) && Rebase(e.path, src, dst) == Rebase(e.path, c, d)
      && Same(f, g, e.path) && Same(f, g, Rebase(e.path, c, d))
    ensures Orderly(f, src, dst, policy, es + more)
  {
    hide AskedRightly, ForAll, PolicyNow, Same;
    var all := es + more;
    forall i | 0 <= i < |all| && all[i].Weighed?
      ensures Under(src, all[i].path)
      ensures AskedRightly(f, all[i].path, Rebase(all[i].path, src, dst), policy, ForAll(all[..i]),
                           all[i].options, all[i].asked)
    {
      if i < |es| {
        assert all[i] == es[i] && all[..i] == es[..i];
      } else {
        var k := i - |es|;
        assert all[i] == more[k] && more[k] in more && all[..i] == es + more[..k];
        ForAllMore(es, more[..k]);
        AskedThere(g, more[k].path, Rebase(more[k].path, c, d), now, ForAll(more[..k]), more[k].options, more[k].asked);
        RightlyLater(f, g, more[k].path, Rebase(more[k].path, c, d), policy, now, ForAll(es), ForAll(more[..k]),
                     more[k].options, more[k].asked);
      }
    }
  }

  /** Everything on record of questions about one entry. */
  ghost predicate OneAsked(f: FS, path: Path, dst: Path, policy: Policy, es: seq<Event>) {
    forall e :: e in es && e.Goes() ==>
      e.path == path && (e.Weighed? ==> AskedRightly(f, path, dst, policy, false, e.options, e.asked))
  }

  /** The first half of do_copy2 and do_move2: decide whether to go on and make room at the
      destination.  `no` is the entry if it is refused, now or by an earlier "skip all".
      Without failures nothing but a refusal or what stands at the destination stops it; with
      them, what stops it has happened to the entry or to what stands there. */
  method MakeRoom(w: World, path: Path, dst: Path)
    returns (go: bool, merge: bool, ghost no: set<Path>, ghost es: seq<Event>)
    requires WellFormed(w.fs) && dst != [] && !w.exited
    modifies w
    ensures WellFormed(w.fs) && w.actionLeaf == old(w.actionLeaf)
    ensures PolicyNow(old(w.policy), w.policy)
    ensures w.refused == old(w.refused) + no && no <= {path} && (no != {} ==> path in old(w.fs))
    ensures w.events == old(w.events) + es && (w.exited <==> Dead(es))
    ensures !w.faults ==> forall e :: e in es ==> e.Peaceful()
    ensures if go then Opening(path, es) else Stopping(old(w.fs), path, dst, old(w.policy), es)
    ensures forall x :: Reached(x) in es ==> x == path
    // Nothing is done without consent, which is asked for when it has to be.
    ensures go ==> Consents(es, path)
    ensures OneAsked(old(w.fs), path, dst, old(w.policy), es) && Heard(old(w.InputNow()), w.InputNow(), es)
    ensures w.policy == ReplaceAll ==> old(w.policy) == ReplaceAll || ForAll(es)
    ensures go ==> no == {} && !w.exited
    ensures !go ==> w.fs == old(w.fs)
    ensures go ==> path in old(w.fs) && merge == (IsDir(old(w.fs), path) && IsDir(old(w.fs), dst))
    ensures go && merge ==> w.fs == old(w.fs)
    ensures go && !merge ==> Cleared(old(w.fs), w.fs, path, dst, old(w.policy))
    ensures !w.faults && !w.exited && path in old(w.fs) ==>
              (go <==> no == {} && !Blocked(old(w.fs), path, dst, old(w.policy)))
    ensures old(w.policy) == SkipExisting && dst in old(w.fs) ==> !go
    ensures old(Automatic(w)) ==> Automatic(w) && no == PolicyRefuses(old(w.fs), path, dst, old(w.policy))
  {
    hide Dead, Stopping, Cleared, WellFormed, Listing, Toggled, Heard, Consents, ForAll, Opening;
    ghost var f, policy, input := w.fs, w.policy, w.InputNow();
    go, merge, no := false, false, {};
    ghost var n := w.CheckFlags(path);
    ghost var first, more: seq<Event> := if w.exited then Died(path) else Reached(path), [];
    HeardFlags(input, w.InputNow(), n, first);
    if !w.exited {
      ghost var before := w.InputNow();
      var found := w.Lstat(path);
      if found {
        go, merge, no, more := Settle(w, path, dst);
        HeardThen(input, before, w.InputNow(), [first], more);
      } else if path in w.fs {
        more := [Unread(path)];
        HeardElse(input, before, [first], Unread(path));
      }
    }
    es := [first] + more;
    assert more == [] ==> [first] + more == [first];
    CourseOf(f, path, dst, policy, first, more);
  }

  /** What can have happened until then. */
  lemma CourseOf(f: FS, path: Path, dst: Path, policy: Policy, first: Event, more: seq<Event>)
    requires first == Reached(path) || first == Died(path)
    requires OneAsked(f, path, dst, policy, more) && forall e :: e in more ==> !e.Reached?
    ensures var es := [first] + more;
      && (Dead(es) <==> first.Died? || Dead(more))
      && (more == [] || more == [Unread(path)] ==> !Dead(more))
      && ((forall e :: e in es ==> e.Peaceful()) <==> forall e :: e in more ==> e.Peaceful())
      && (forall x :: Reached(x) in es ==> x == path)
      && OneAsked(f, path, dst, policy, es)
      && (Consents(more, path) ==> Consents(es, path)) && (ForAll(more) ==> ForAll(es))
      && (first.Reached? && (forall e :: e in more ==> e.Goes()) ==> Opening(path, es))
      && (Stopping(f, path, dst, policy, more) || first.Died? || more == [Unread(path)] || path !in f ==>
            Stopping(f, path, dst, policy, es))
  {
    var es := [first] + more;
    hide Blocked, AskedRightly;
    assert forall e :: e in es <==> e == first || e in more;
    if first.Died? { assert Died(first.path) in es; }
  }

  /** What one question can leave on record: in the end it is refused, or the parent is found to
      be gone, or the procedure goes on. */
  ghost predicate Asking(path: Path, more: seq<Event>) {
    forall i :: 0 <= i < |more| ==>
      more[i].path == path && (more[i].Goes() || (i == |more| - 1 && (more[i].Refused? || more[i].Died?)))
  }

  lemma AskingEnds(path: Path, more: seq<Event>)
    requires Asking(path, more)
    ensures forall e :: e in more ==> !e.Reached? && e.Peaceful() && e.path == path
    ensures Dead(more) <==> more != [] && more[|more| - 1].Died?
    ensures Refused(path) in more <==> more != [] && more[|more| - 1].Refused?
    ensures Died(path) in more <==> Dead(more)
    ensures (forall e :: e in more ==> e.Goes()) <==> !Dead(more) && Refused(path) !in more
    ensures more != [] && more[|more| - 1].Agreed? && more[|more| - 1].all ==> ForAll(more)
    ensures more != [] && !Dead(more) && Refused(path) !in more && more[|more| - 1].Agreed? ==> Consents(more, path)
    ensures more != [] && more[|more| - 1].Weighed? && !more[|more| - 1].asked ==> Consents(more, path)
  {
  }

  /** A question with its answer, and going on without one. */
  lemma QuestionMeans(f: FS, path: Path, dst: Path, policy: Policy, o: Options, answer: Answer)
    requires AskedRightly(f, path, dst, policy, false, o, true)
    ensures var more := Answered(o, answer, path);
      && Asking(path, more) && OneAsked(f, path, dst, policy, more) && more != []
      && (Dead(more) <==> answer == Gone) && (Refused(path) in more <==> answer == No || answer == Skip)
      && (answer == Yes || answer == All ==> Consents(more, path)) && (answer == All ==> ForAll(more))
  {
    hide AskedRightly;
    var more := Answered(o, answer, path);
    assert more[1] in more && forall e :: e in more <==> e == more[0] || e == more[1];
    if answer == Gone { assert Died(path) in more; }
  }

  lemma NoQuestionMeans(f: FS, path: Path, dst: Path, policy: Policy, o: Options)
    requires AskedRightly(f, path, dst, policy, false, o, false)
    ensures var more := [Weighed(path, o, false)];
      && Asking(path, more) && OneAsked(f, path, dst, policy, more) && !Dead(more) && Refused(path) !in more
      && Consents(more, path)
  {
    hide AskedRightly;
    assert Weighed(path, o, false) in [Weighed(path, o, false)];
  }

  lemma RefusalMeans(f: FS, path: Path, dst: Path, policy: Policy)
    ensures Asking(path, []) && OneAsked(f, path, dst, policy, []) && !Dead([])
    ensures var more := [Refused(path)];
      Asking(path, more) && OneAsked(f, path, dst, policy, more) && !Dead(more) && Refused(path) in more
  {
  }

  /** Its decision for an entry that is there: what the policy says, or the user. */
  method Consult(w: World, path: Path, dst: Path, merge: bool) returns (go: bool, ghost more: seq<Event>)
    requires !w.exited && path in w.fs && merge == (IsDir(w.fs, path) && IsDir(w.fs, dst))
    modifies w
    ensures w.fs == old(w.fs) && w.actionLeaf == old(w.actionLeaf) && PolicyNow(old(w.policy), w.policy)
    ensures w.events == old(w.events) + more && (w.exited <==> Dead(more)) && Asking(path, more)
    ensures w.refused == old(w.refused) + if Refused(path) in more then {path} else {}
    ensures if go then more != [] && !w.exited && Refused(path) !in more && Consents(more, path)
            else w.exited || Refused(path) in more
                 || (more == [] && Blocked(w.fs, path, dst, old(w.policy)))
    ensures OneAsked(w.fs, path, dst, old(w.policy), more) && Heard(old(w.InputNow()), w.InputNow(), more)
    ensures w.policy == ReplaceAll ==> old(w.policy) == ReplaceAll || ForAll(more)
    ensures go && dst in w.fs ==> old(w.policy) != SkipExisting
    ensures go && dst in w.fs && old(w.policy) == UpdateNewer ==>
              IsDir(w.fs, path) || w.fs[path].mtime > w.fs[dst].mtime
    ensures old(Automatic(w)) ==> Automatic(w) && (go <==> Refused(path) !in more && more != [])
    ensures old(Automatic(w)) ==> (Refused(path) in more <==> old(w.policy) == SkipExisting && dst in w.fs)
  {
    hide Heard, ReadAnswer, Dead, Consents, ForAll, Asking, OneAsked, Answered;
    ghost var f, policy, input := w.fs, w.policy, w.InputNow();
    RefusalMeans(f, path, dst, policy);
    if dst in w.fs {
      if w.policy == SkipExisting {
        w.Refuse(path);
        go, more := false, [Refused(path)];
        HeardElse(input, input, [], Refused(path)) by { HeardNothing(input); }
        assert [] + more == more;
      } else if w.policy == UpdateNewer && !IsDir(w.fs, path) && w.fs[path].mtime <= w.fs[dst].mtime {
        go, more := false, [];
        HeardNothing(input);
      } else if w.policy == ReplaceAll || w.policy == UpdateNewer || (merge && w.options.merge) {
        go := true;
        more := Unasked(w, path, dst);
      } else {
        ghost var answer := ReadAnswer(input.options, input.rest, true).0;
        go := w.ConflictReply(path);
        more := Answered(input.options, answer, path);
        HeardAnswer(input, true, path);
        QuestionMeans(f, path, dst, policy, input.options, answer);
      }
    } else if !w.options.quiet {
      ghost var answer := ReadAnswer(input.options, input.rest, false).0;
      go := w.Reply(false, path);
      more := Answered(input.options, answer, path);
      HeardAnswer(input, false, path);
      QuestionMeans(f, path, dst, policy, input.options, answer);
    } else {
      go := true;
      more := Unasked(w, path, dst);
    }
  }

  /** Going on without a question, for the record. */
  ghost method Unasked(w: World, path: Path, dst: Path) returns (more: seq<Event>)
    requires AskedRightly(w.fs, path, dst, w.policy, false, w.options, false)
    modifies w`events
    ensures w.events == old(w.events) + more && more == [Weighed(path, w.options, false)]
    ensures Asking(path, more) && OneAsked(w.fs, path, dst, w.policy, more) && !Dead(more) && Refused(path) !in more
    ensures Consents(more, path) && Heard(w.InputNow(), w.InputNow(), more)
  {
    w.Weigh(path, false);
    more := [Weighed(path, w.options, false)];
    NoQuestionMeans(w.fs, path, dst, w.policy, w.options);
    HeardUnasked(w.InputNow(), path);
  }

  /** Its second part, for an entry that is there. */
  method Settle(w: World, path: Path, dst: Path)
    returns (go: bool, merge: bool, ghost no: set<Path>, ghost more: seq<Event>)
    requires WellFormed(w.fs) && dst != [] && !w.exited && path in w.fs
    modifies w
    ensures WellFormed(w.fs) && w.actionLeaf == old(w.actionLeaf)
    ensures PolicyNow(old(w.policy), w.policy)
    ensures w.events == old(w.events) + more && (w.exited <==> Dead(more))
    ensures w.refused == old(w.refused) + no && no == if Refused(path) in more then {path} else {}
    ensures forall e :: e in more ==> !e.Reached?
    ensures !w.faults ==> forall e :: e in more ==> e.Peaceful()
    ensures if go then forall e :: e in more ==> e.Goes() else Stopping(old(w.fs), path, dst, old(w.policy), more)
    ensures go ==> Consents(more, path) && !w.exited && no == {}
    ensures OneAsked(old(w.fs), path, dst, old(w.policy), more) && Heard(old(w.InputNow()), w.InputNow(), more)
    ensures w.policy == ReplaceAll ==> old(w.policy) == ReplaceAll || ForAll(more)
    ensures !go ==> w.fs == old(w.fs)
    ensures go ==> merge == (IsDir(old(w.fs), path) && IsDir(old(w.fs), dst))
    ensures go && merge ==> w.fs == old(w.fs)
    ensures go && !merge ==> Cleared(old(w.fs), w.fs, path, dst, old(w.policy))
    ensures !w.faults && !w.exited ==> (go <==> no == {} && !Blocked(old(w.fs), path, dst, old(w.policy)))
    ensures old(w.policy) == SkipExisting && dst in old(w.fs) ==> !go
    ensures old(Automatic(w)) ==> Automatic(w) && no == PolicyRefuses(old(w.fs), path, dst, old(w.policy))
  {
    hide WellFormed, Heard, Dead, OneAsked, Consents, ForAll, Asking;
    ghost var f, policy, input := w.fs, w.policy, w.InputNow();
    merge := IsDir(w.fs, path) && IsDir(w.fs, dst);
    go, more := Consult(w, path, dst, merge);
    no := if Refused(path) in more then {path} else {};
    AskingEnds(path, more);
    if go && dst in w.fs && !merge {
      ghost var asked := more;
      var outcome := w.Remove(dst);
      if outcome == Failed {
        go := false;
        if w.events != old(w.events) + more {
          more := more + [Denied(dst)];
          HeardElse(input, w.InputNow(), asked, Denied(dst));
          DeniedToo(f, path, dst, policy, asked);
        }
      }
    }
  }

  lemma DeniedToo(f: FS, path: Path, dst: Path, policy: Policy, more: seq<Event>)
    ensures Dead(more + [Denied(dst)]) <==> Dead(more)
    ensures OneAsked(f, path, dst, policy, more) ==> OneAsked(f, path, dst, policy, more + [Denied(dst)])
    ensures ForAll(more) ==> ForAll(more + [Denied(dst)])
    ensures Refused(path) in more + [Denied(dst)] <==> Refused(path) in more
  {
    assert forall e :: e in more + [Denied(dst)] <==> e in more || e == Denied(dst);
  }

  /** What "skip existing" refuses. */
  ghost function PolicyRefuses(f: FS, path: Path, dst: Path, policy: Policy): set<Path> {
    if policy == SkipExisting && path in f && dst in f then {path} else {}
  }

  /** Nothing stands at `dst` any more, and the policy allowed what was there to go. */
  ghost predicate Cleared(f: FS, f1: FS, src: Path, dst: Path, policy: Policy) {
    && src in f && dst !in f1
    && ((dst !in f && f1 == f) || (dst in f && !(IsDir(f, src) && IsDir(f, dst)) && f1 == f - {dst}))
    && (dst in f ==> policy != SkipExisting)
    && (dst in f && policy == UpdateNewer ==> IsDir(f, src) || f[src].mtime > f[dst].mtime)
  }

  /** A destination that has been cleared has nothing below it. */
  lemma NothingBelow(g: FS, dst: Path)
    requires WellFormed(g) && dst !in g
    ensures forall p :: p in g ==> !Under(dst, p)
  {
    forall p | p in g ensures !Under(dst, p) {
      if Under(dst, p) { Ancestors(g, dst, p); }
    }
  }

  lemma ClearedOnly(f: FS, f1: FS, src: Path, dst: Path, x: Path, policy: Policy)
    requires WellFormed(f1) && Cleared(f, f1, src, dst, policy)
    requires Under(src, x) && Rebase(x, src, dst) in f
    ensures x == src
  {
    NothingBelow(f1, dst);
  }

  /** A destination that is not inside the source can only have been cleared if it does not
      contain the source either. */
  lemma ClearedApart(f: FS, f1: FS, src: Path, dst: Path, policy: Policy)
    requires WellFormed(f1) && Cleared(f, f1, src, dst, policy) && !Under(src, dst)
    ensures Apart(src, dst)
  {
    ApartOrOver(src, dst);
    NothingBelow(f1, dst);
  }

  lemma ClearedNotFull(f: FS, f1: FS, src: Path, dst: Path, policy: Policy)
    requires WellFormed(f1) && Cleared(f, f1, src, dst, policy)
    ensures !Full(f, src, dst)
  {
    NothingBelow(f1, dst);
    if Full(f, src, dst) {
      var n :| n in Listing(f, dst);
      ListingSound(f, dst, n);
    }
  }

  lemma ClearedParent(f: FS, f1: FS, src: Path, dest: Path, dst: Path, policy: Policy)
    requires Cleared(f, f1, src, dst, policy) && Apart(src, dst) && dst != [] && Parent(dst) == dest
    ensures src in f && src in f1 && f1[src] == f[src] && dst !in f1 && !(IsDir(f, src) && IsDir(f, dst))
    ensures IsDir(f, dest) ==> IsDir(f1, Parent(dst))
  {
  }
}
