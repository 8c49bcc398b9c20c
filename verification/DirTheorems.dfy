/** What the watchers of a directory can rely on, over whole runs. */
module DirTheorems {
  import opened Basics
  import opened DirSpec
  import opened DirInvariants

  // ----- the end of a scan

  /** Every watcher displays exactly the known items that pass its filter, each once. */
  ghost predicate Exact(s: Dir) {
    forall i :: 0 <= i < |s.users| ==>
      && s.users[i].view == s.users[i].Visible(s.items.known.Keys)
      && s.users[i].missed == {} && s.users[i].doubled == {}
  }

  predicate Quiet(it: Items) {
    it.added == map[] && it.gone == {} && it.twice == {}
  }

  lemma FinishExact(s: Dir)
    requires Core(s.items, s.users) && s.ctl.scanning
    ensures var r := Finish(s);
      Exact(r) && Quiet(r.items) && r.items.known.Keys == s.items.known.Keys + s.items.added.Keys
  {
  }

  lemma MergeQuiet(s: Dir)
    requires Core(s.items, s.users) && Exact(s) && Quiet(s.items)
    ensures var r := Merge(s);
      Exact(r) && Quiet(r.items) && r.items == s.items.(up := {}) && r.ctl == s.ctl
  {
  }

  lemma {:induction false} RescanExact(s: Dir, env: Env, pick: Name)
    requires Core(s.items, s.users) && !s.ctl.scanning && !s.ctl.idle
    requires Exact(s) || env.listing.Listed?
    ensures var r := Rescan(s, env, pick); !r.ctl.scanning ==> Exact(r)
    decreases 2
  {
    var s0 := s.(ctl := s.ctl.(needsUpdate := false, error := !env.listing.Listed?));
    match env.listing
    case StatFailed(close) =>
      var r := RemoveMissing(s0, {});
      forall i | 0 <= i < |r.users| ensures r.users[i].view == {} {
        assert r.users[i] == OnRemove(s0.users[i], s0.items.known.Keys - {});
      }
    case OpenFailed =>
    case Listed(names) =>
      var s1 := Relist(s0, names);
      RelistIsListing(s0, names);
      QueueKeeps(s1.items, s1.users, Watched(s1.users));
      var s2 := s1.(items := QueueItems(s1.items, Watched(s1.users)));
      SetIdleExact(s2, env, pick);
      SetIdleKeeps(s2, env, pick);
      if !SetIdle(s2, env, pick).ctl.scanning { MergeQuiet(SetIdle(s2, env, pick)); }
  }

  lemma {:induction false} RecheckExact(s: Dir, leaf: Name, env: Env, pick: Name)
    requires Core(s.items, s.users) && s.ctl.scanning && s.ctl.idle && s.users != []
    ensures var r := Recheck(s, leaf, env, pick);
      && (!r.ctl.scanning ==> Exact(r))
      && (!s.ctl.needsUpdate && !r.ctl.scanning ==> Quiet(r.items))
    decreases if s.ctl.needsUpdate then 3 else 0
  {
    PopKeeps(s, leaf, env);
    var s1 := Pop(s, leaf, env);
    if s1.items.recheck == {} {
      FinishKeeps(s1);
      FinishExact(s1);
      if s.ctl.needsUpdate { RescanExact(Finish(s1), env, pick); }
    }
  }

  lemma {:induction false} SetIdleExact(s: Dir, env: Env, pick: Name)
    requires Core(s.items, s.users) && s.ctl.scanning && Quiet(s.items) && !s.ctl.needsUpdate
    ensures var r := SetIdle(s, env, pick); !r.ctl.scanning ==> Exact(r) && Quiet(r.items)
    decreases 1
  {
    hide Recheck, Merge;
    if s.items.recheck != {} && s.users != [] && !s.ctl.idle {
      RecheckExact(s.(ctl := s.ctl.(idle := true)), pick, env, pick);
    }
  }

  /** Whatever was lost before, a step that ends a scan leaves every watcher with exactly the
      known items that pass its filter. */
  lemma ScanEndShowsAll(s: Dir, x: Input)
    requires Inv(s) && Enabled(s, x.event)
    requires s.ctl.scanning && !Step(s, x).ctl.scanning
    ensures Exact(Step(s, x))
  {
    hide Core, Attach, Recheck, Rescan, Insert, Merge;
    match x.event
    case EAttach(id, h) => AttachScans(s, id, h, x.env, x.pick);
    case EDetach(id) => DetachExact(s, id, x.env, x.pick);
    case EIdle(leaf) => RecheckExact(s, leaf, x.env, x.pick);
    case ECheck(leaf) => InsertScans(s, leaf, x.env);
    case EUpdateItem(leaf) => InsertScans(s, leaf, x.env);
      MergeRest(Insert(s, leaf, x.env));
    case ENotify => MergeRest(s);
    case _ =>
  }

  lemma DetachExact(s: Dir, id: nat, env: Env, pick: Name)
    requires Inv(s) && s.ctl.scanning && !Detach(s, id, env, pick).ctl.scanning
    ensures Exact(Detach(s, id, env, pick))
  {
  }

  lemma InsertScans(s: Dir, leaf: Name, env: Env)
    ensures Insert(s, leaf, env).ctl.scanning == s.ctl.scanning
  {
  }

  /** Attaching while a scan runs does not end it. */
  lemma AttachScans(s: Dir, id: nat, h: bool, env: Env, pick: Name)
    requires Inv(s) && s.ctl.scanning
    ensures Attach(s, id, h, env, pick).ctl.scanning
  {
  }

  /** The names on the recheck list that a restat will not find. */
  function Vanished(recheck: set<Name>, env: Env): set<Name> {
    set n | n in recheck && !Ignored(n) && n !in env.present
  }

  lemma PopRemoves(s: Dir, leaf: Name, env: Env)
    requires Tidy(s.items) && leaf in s.items.recheck && s.items.recheck <= s.items.known.Keys
    ensures var r := Pop(s, leaf, env);
      && r.items.recheck == s.items.recheck - {leaf} <= r.items.known.Keys
      && r.items.known.Keys + r.items.added.Keys
         == (s.items.known.Keys + s.items.added.Keys) - Vanished({leaf}, env)
  {
  }

  /** A scan, running or just over, that nothing disturbs ends after one callback for each
      queued name, in whatever order they are taken.  It is then over for every watcher, and
      what is known is what was known or pending, less the queued names that the restat did
      not find. */
  lemma {:induction false} ScanEnds(s: Dir, xs: seq<Input>, env: Env)
    requires Core(s.items, s.users) && Busy(s) && s.users != [] && !s.ctl.needsUpdate
    requires s.items.recheck <= s.items.known.Keys
    requires s.items.recheck == {} ==> Exact(s) && Quiet(s.items)
    requires IsRun(s, xs) && forall i :: 0 <= i < |xs| ==> xs[i].event.EIdle? && xs[i].env == env
    ensures |xs| <= |s.items.recheck|
    ensures var r := RunFrom(s, xs);
      && (r.ctl.scanning <==> |xs| < |s.items.recheck|)
      && (!r.ctl.scanning ==>
            && Exact(r) && Quiet(r.items) && r.items.recheck == {} && !r.ctl.idle
            && |r.users| == |s.users|
            && r.items.known.Keys
               == (s.items.known.Keys + s.items.added.Keys) - Vanished(s.items.recheck, env))
    decreases |xs|
  {
    hide Pop, Finish;
    if xs == [] {
      assert s.items.recheck == {} ==> Vanished(s.items.recheck, env) == {};
    } else {
      var leaf := xs[0].event.leaf;
      var s1 := Pop(s, leaf, env);
      PopKeeps(s, leaf, env);
      PopRemoves(s, leaf, env);
      assert Vanished(s.items.recheck, env)
        == Vanished(s.items.recheck - {leaf}, env) + Vanished({leaf}, env);
      if s1.items.recheck == {} {
        FinishKeeps(s1);
        FinishExact(s1);
        assert Step(s, xs[0]) == Finish(s1);
        assert s.items.recheck - {leaf} == {};
        assert Step(s, xs[0]).items.recheck == {};
        assert Vanished({}, env) == {};
        ScanEnds(Finish(s1), xs[1..], env);
      } else {
        assert Step(s, xs[0]) == s1;
        assert forall i :: 0 <= i < |xs[1..]| ==> xs[1..][i] == xs[i + 1];
        ScanEnds(s1, xs[1..], env);
      }
    }
  }

  // ----- the work a scan has to do

  /** The items still to be put on the recheck list when somebody wants them. */
  function Flagged(it: Items): set<Name> {
    (set n | n in it.known && it.known[n]) + (set n | n in it.added && it.added[n])
  }

  function WorkLeft(it: Items): nat {
    |Flagged(it)| + |it.recheck|
  }

  lemma Sizes(a: set<Name>, b: set<Name>)
    requires a !! b
    ensures |a + b| == |a| + |b|
  {
  }

  predicate IsFlagged(it: Items, n: Name) {
    (n in it.known && it.known[n]) || (n in it.added && it.added[n])
  }

  lemma FlaggedIs(it: Items, n: Name)
    ensures n in Flagged(it) <==> IsFlagged(it, n)
  {
  }

  /** However many watchers queue their items, the work stays the same. */
  lemma QueueKeepsWork(it: Items, view: set<Name>)
    requires Tidy(it)
    ensures WorkLeft(QueueItems(it, view)) == WorkLeft(it)
  {
    hide Flagged;
    var q := set n | n in it.known && it.known[n] && n in view;
    var r := QueueItems(it, view);
    forall n
      ensures n in Flagged(it) <==> n in Flagged(r) || n in q
      ensures n in q ==> n !in Flagged(r) && n !in it.recheck
    {
      FlaggedIs(it, n);
      FlaggedIs(r, n);
    }
    assert Flagged(it) == Flagged(r) + q;
    Sizes(Flagged(r), q);
    Sizes(it.recheck, q);
  }

  lemma InsertFlagsNone(it: Items, leaf: Name, env: Env)
    ensures Flagged(InsertItem(it, leaf, env)) <= Flagged(it)
  {
  }

  lemma MergeFlagsNone(it: Items)
    ensures Flagged(MergeItems(it)) <= Flagged(it)
  {
  }

  /** Every call of recheck_callback lowers it, until the scan is over. */
  lemma RecheckFalls(s: Dir, leaf: Name, env: Env, pick: Name)
    requires leaf in s.items.recheck && !s.ctl.needsUpdate
    ensures WorkLeft(Recheck(s, leaf, env, pick).items) < WorkLeft(s.items)
  {
    hide Flagged, InsertItem, MergeItems;
    var it := s.items.(recheck := s.items.recheck - {leaf});
    SameFlags(s.items, it.recheck);
    InsertFlagsNone(it, leaf, env);
    var p, r := Pop(s, leaf, env), Recheck(s, leaf, env, pick);
    MergeFlagsNone(p.items);
    assert r.items == p.items || r.items == MergeItems(p.items);
    RecheckSame(it, leaf, env);
    RecheckSame(p.items, leaf, env);
    SubsetSize(Flagged(r.items), Flagged(s.items));
    assert s.items.recheck == it.recheck + {leaf};
    Sizes(it.recheck, {leaf});
  }

  lemma SameFlags(it: Items, recheck: set<Name>)
    ensures Flagged(it.(recheck := recheck)) == Flagged(it)
  {
  }

  lemma RecheckSame(it: Items, leaf: Name, env: Env)
    ensures InsertItem(it, leaf, env).recheck == it.recheck == MergeItems(it).recheck
  {
  }

  /** The names a successful rescan puts on the recheck list. */
  function Queued(s: Dir, names: set<Name>): set<Name> {
    (names - {".", ".."}) * Watched(Relist(s, names).users)
  }

  /** The state in which dir_rescan calls set_idle_callback. */
  lemma RelistQueues(s: Dir, names: set<Name>)
    requires Core(s.items, s.users)
    ensures var s1 := Relist(s, names); var it := QueueItems(s1.items, Watched(s1.users));
      && it.recheck == Queued(s, names) && it.known.Keys == names - {".", ".."}
      && Quiet(it) && Core(it, s1.users) && |s1.users| == |s.users|
  {
    RelistIsListing(s, names);
    var s1 := Relist(s, names);
    QueueKeeps(s1.items, s1.users, Watched(s1.users));
  }

  /** set_idle_callback rechecks the first queued name at once. */
  lemma FirstRecheck(s: Dir, env: Env, pick: Name)
    requires Core(s.items, s.users) && s.ctl.scanning && !s.ctl.idle && !s.ctl.needsUpdate
    requires s.users != [] && Quiet(s.items) && pick in s.items.recheck && s.items.recheck <= s.items.known.Keys
    ensures var r := SetIdle(s, env, pick);
      && r.items.recheck == s.items.recheck - {pick} && r.items.recheck <= r.items.known.Keys
      && r.items.known.Keys + r.items.added.Keys == s.items.known.Keys - Vanished({pick}, env)
      && (r.items.recheck != {} ==> r.ctl.scanning)
      && (r.items.recheck == {} ==> !r.ctl.scanning && !r.ctl.idle && Exact(r) && Quiet(r.items))
  {
    var s1 := s.(ctl := s.ctl.(idle := true));
    PopKeeps(s1, pick, env);
    PopRemoves(s1, pick, env);
    var p := Pop(s1, pick, env);
    assert SetIdle(s, env, pick) == Recheck(s1, pick, env, pick);
    if p.items.recheck == {} { FinishExact(p); }
  }

  /** The state from which dir_rescan reads the directory. */
  function Requested(s: Dir): Dir {
    s.(ctl := s.ctl.(needsUpdate := false, error := false))
  }

  /** The first recheck of a rescan, from the state in which the queue has just been filled. */
  lemma QueueStarts(s: Dir, env: Env, pick: Name)
    requires Core(s.items, s.users) && s.ctl.scanning && !s.ctl.idle && !s.ctl.needsUpdate
    requires s.users != [] && Quiet(s.items) && s.items.recheck <= s.items.known.Keys
    requires s.items.recheck != {} ==> pick in s.items.recheck
    ensures var r := Merge(SetIdle(s, env, pick));
      && Core(r.items, r.users) && Busy(r) && !r.ctl.needsUpdate && |r.users| == |s.users|
      && r.items.recheck == s.items.recheck - {pick} && r.items.recheck <= r.items.known.Keys
      && Quiet(r.items)
      && r.items.known.Keys == s.items.known.Keys - Vanished(s.items.recheck * {pick}, env)
      && (r.items.recheck == {} ==> Exact(r))
  {
    var q := s.items.recheck;
    var r := SetIdle(s, env, pick);
    SetIdleKeeps(s, env, pick);
    if q == {} {
      assert q - {pick} == {} && Vanished(q * {pick}, env) == {};
      SetIdleExact(s, env, pick);
    } else {
      assert q * {pick} == {pick};
      FirstRecheck(s, env, pick);
    }
    MergeKeeps(r);
    if q - {pick} == {} { MergeQuiet(r); }
  }

  lemma RescanScans(s: Dir, names: set<Name>, env: Env, pick: Name)
    requires Core(s.items, s.users) && !s.ctl.scanning && !s.ctl.idle && s.users != []
    requires env.listing == Listed(names)
    requires Queued(Requested(s), names) != {} ==> pick in Queued(Requested(s), names)
    ensures var q := Queued(Requested(s), names);
      ScanStarted(Rescan(s, env, pick), q, names - {".", ".."}, env, pick, |s.users|)
  {
    var s0 := Requested(s);
    var s1 := Relist(s0, names);
    RelistIsListing(s0, names);
    RelistQueues(s0, names);
    QueueStarts(s1.(items := QueueItems(s1.items, Watched(s1.users))), env, pick);
  }

  /** A scan of the listing `listed` for which `q` was queued and `pick` has been restatted. */
  ghost predicate ScanStarted(r: Dir, q: set<Name>, listed: set<Name>, env: Env, pick: Name, users: nat) {
    && Core(r.items, r.users) && Busy(r) && !r.ctl.needsUpdate && |r.users| == users
    && r.items.recheck == q - {pick} && r.items.recheck <= r.items.known.Keys
    && Quiet(r.items)
    && r.items.known.Keys == listed - Vanished(q * {pick}, env)
    && (r.items.recheck == {} ==> Exact(r))
  }

  lemma StartedScanEnds(r: Dir, q: set<Name>, listed: set<Name>, env: Env, pick: Name, users: nat, xs: seq<Input>)
    requires ScanStarted(r, q, listed, env, pick, users) && users > 0
    requires IsRun(r, xs) && forall i :: 0 <= i < |xs| ==> xs[i].event.EIdle? && xs[i].env == env
    ensures var r' := RunFrom(r, xs);
      && (r'.ctl.scanning <==> |xs| < |q - {pick}|)
      && (!r'.ctl.scanning ==> ScanDone(r', listed - Vanished(q, env), users))
  {
    ScanEnds(r, xs, env);
    assert Vanished(q, env) == Vanished(q - {pick}, env) + Vanished(q * {pick}, env);
  }

  /** No scan is running, exactly `contents` is known, and every watcher shows what passes
      its filter of that. */
  ghost predicate ScanDone(r: Dir, contents: set<Name>, users: nat) {
    && Exact(r) && r.items.recheck == {} && Quiet(r.items) && |r.users| == users
    && r.items.known.Keys == contents
  }

  /** A rescan that reads `names`, followed by the idle callbacks of its scan: the scan goes
      on exactly while a queued name is left, and when it ends what is known is the listing
      less the displayed names that had vanished by the time they were restatted, and every
      watcher shows what passes its filter of that. */
  lemma RefreshShowsDirectory(s: Dir, names: set<Name>, env: Env, pick: Name, xs: seq<Input>)
    requires Core(s.items, s.users) && !s.ctl.scanning && !s.ctl.idle && s.users != []
    requires env.listing == Listed(names)
    requires Queued(Requested(s), names) != {} ==> pick in Queued(Requested(s), names)
    requires IsRun(Rescan(s, env, pick), xs)
    requires forall i :: 0 <= i < |xs| ==> xs[i].event.EIdle? && xs[i].env == env
    ensures var q := Queued(Requested(s), names); var r := RunFrom(Rescan(s, env, pick), xs);
      && (r.ctl.scanning <==> |xs| < |q - {pick}|)
      && (!r.ctl.scanning ==> ScanDone(r, (names - {".", ".."}) - Vanished(q, env), |s.users|))
  {
    RescanScans(s, names, env, pick);
    StartedScanEnds(Rescan(s, env, pick), Queued(Requested(s), names), names - {".", ".."}, env, pick, |s.users|, xs);
  }

  // ----- no request for a rescan is lost

  /** The known items are those of the listing, except perhaps for `pick`, which has been
      restatted since. */
  ghost predicate InLine(it: Items, listed: set<Name>, pick: Name) {
    forall n :: n != pick ==> (n in it.known || n in it.added <==> n in listed)
  }

  lemma SetIdleInLine(s: Dir, listed: set<Name>, env: Env, pick: Name)
    requires InLine(s.items, listed, pick) && !s.ctl.needsUpdate
    ensures InLine(SetIdle(s, env, pick).items, listed, pick)
  {
    if s.items.recheck != {} && s.users != [] {
      var s1 := SetScanning(s, true);
      assert s1.items == s.items;
      if !s1.ctl.idle { RecheckInLine(s1.(ctl := s1.ctl.(idle := true)), listed, env, pick); }
    }
  }

  lemma RecheckInLine(s: Dir, listed: set<Name>, env: Env, pick: Name)
    requires InLine(s.items, listed, pick) && !s.ctl.needsUpdate
    ensures InLine(Recheck(s, pick, env, pick).items, listed, pick)
  {
    var p := Pop(s, pick, env);
    assert InLine(p.items, listed, pick);
    assert InLine(Merge(p).items, listed, pick);
  }

  lemma RescanReads(s: Dir, names: set<Name>, env: Env, pick: Name)
    requires Core(s.items, s.users) && env.listing == Listed(names)
    ensures InLine(Rescan(s, env, pick).items, names - {".", ".."}, pick)
    ensures Rescan(s, env, pick).items.added == map[]
  {
    var s0 := Requested(s);
    var s1 := Relist(s0, names);
    RelistQueues(s0, names);
    var s2 := s1.(items := QueueItems(s1.items, Watched(s1.users)));
    SetIdleInLine(s2, names - {".", ".."}, env, pick);
    assert InLine(Merge(SetIdle(s2, env, pick)).items, names - {".", ".."}, pick);
  }

  /** A step that clears a request has read the directory: if it could, the cache is in line
      with what it read. */
  lemma RequestHonoured(s: Dir, x: Input, names: set<Name>)
    requires Inv(s) && Enabled(s, x.event) && x.env.listing == Listed(names)
    requires s.ctl.needsUpdate && !Step(s, x).ctl.needsUpdate
    ensures InLine(Step(s, x).items, names - {".", ".."}, x.pick)
  {
    hide Core, Rescan, Attach, Recheck, InLine, Busy;
    match x.event
    case EAttach(id, h) => AttachHonoured(s, id, h, names, x.env, x.pick);
    case EDetach(id) => DetachForgets(s, id, x.env, x.pick);
    case EIdle(leaf) => IdleHonoured(s, leaf, names, x.env, x.pick);
    case EUpdate => RescanReads(s, names, x.env, x.pick);
    case ETimeout => RescanReads(s, names, x.env, x.pick);
    case _ =>
  }

  lemma AttachHonoured(s: Dir, id: nat, h: bool, names: set<Name>, env: Env, pick: Name)
    requires Inv(s) && env.listing == Listed(names)
    requires s.ctl.needsUpdate && !Attach(s, id, h, env, pick).ctl.needsUpdate
    ensures InLine(Attach(s, id, h, env, pick).items, names - {".", ".."}, pick)
  {
    hide Core, Rescan, Recheck, InLine;
    GreetAgrees(s, id, h);
    GreetKeeps(s, id, h, env, pick);
    if !s.ctl.scanning {
      var u := OnAdd(NewUser(id, h), s.items.known.Keys, {});
      RescanReads(s.(users := [u] + s.users), names, env, pick);
      SetIdleInLine(Greet(s, id, h, env, pick), names - {".", ".."}, env, pick);
    }
  }

  /** Detaching a window does not clear a request. */
  lemma DetachForgets(s: Dir, id: nat, env: Env, pick: Name)
    requires Inv(s)
    ensures Detach(s, id, env, pick).ctl.needsUpdate == s.ctl.needsUpdate
  {
  }

  lemma IdleHonoured(s: Dir, leaf: Name, names: set<Name>, env: Env, pick: Name)
    requires Inv(s) && Enabled(s, EIdle(leaf)) && env.listing == Listed(names)
    requires s.ctl.needsUpdate && !Recheck(s, leaf, env, pick).ctl.needsUpdate
    ensures InLine(Recheck(s, leaf, env, pick).items, names - {".", ".."}, pick)
  {
    hide Core, Rescan, Pop, Finish, InLine;
    PopKeeps(s, leaf, env);
    var p := Pop(s, leaf, env);
    if p.items.recheck == {} {
      FinishKeeps(p);
      RescanReads(Finish(p), names, env, pick);
    }
  }

  // ----- a reported change is shown in the end

  /** The directory is readable and holds just `listed` (and the two dot names). */
  predicate Steady(env: Env, listed: set<Name>) {
    && env.listing.Listed? && env.listing.names - {".", ".."} == listed
    && env.present == listed
  }

  /** A rescan is still requested; or the cache knows the listing, and when no scan runs every
      watcher shows what passes its filter of that. */
  ghost predicate OnTheWay(s: Dir, listed: set<Name>) {
    && Inv(s) && s.users != []
    && (s.ctl.needsUpdate ||
        (s.items.known.Keys + s.items.added.Keys == listed
         && (!s.ctl.scanning ==> Exact(s) && s.items.added == map[])))
  }

  lemma SteadyRescan(s: Dir, listed: set<Name>, env: Env, pick: Name)
    requires Core(s.items, s.users) && !s.ctl.scanning && !s.ctl.idle && s.users != [] && Steady(env, listed)
    ensures var r := Rescan(s, env, pick);
      r.items.known.Keys == listed && r.items.added == map[] && (!r.ctl.scanning ==> Exact(r))
  {
    RescanExact(s, env, pick);
    var s0 := Requested(s);
    RelistQueues(s0, env.listing.names);
    var s1 := Relist(s0, env.listing.names);
    var s2 := s1.(items := QueueItems(s1.items, Watched(s1.users)));
    SteadySetIdle(s2, listed, env, pick);
    assert Merge(SetIdle(s2, env, pick)).items.known.Keys == listed;
  }

  lemma SteadySetIdle(s: Dir, listed: set<Name>, env: Env, pick: Name)
    requires s.items.known.Keys + s.items.added.Keys == listed && Steady(env, listed) && !s.ctl.needsUpdate
    ensures var r := SetIdle(s, env, pick); r.items.known.Keys + r.items.added.Keys == listed
  {
    if s.items.recheck != {} && s.users != [] {
      var s1 := SetScanning(s, true);
      if !s1.ctl.idle { SteadyRecheck(s1.(ctl := s1.ctl.(idle := true)), listed, env, pick, pick); }
    }
  }

  lemma SteadyRecheck(s: Dir, listed: set<Name>, env: Env, leaf: Name, pick: Name)
    requires s.items.known.Keys + s.items.added.Keys == listed && Steady(env, listed) && !s.ctl.needsUpdate
    ensures var r := Recheck(s, leaf, env, pick); r.items.known.Keys + r.items.added.Keys == listed
  {
    hide InsertItem, MergeItems;
    SteadyInsert(s.items.(recheck := s.items.recheck - {leaf}), listed, leaf, env);
    var p := Pop(s, leaf, env);
    MergedNames(p.items);
    assert Recheck(s, leaf, env, pick).items == p.items || Recheck(s, leaf, env, pick).items == MergeItems(p.items);
  }

  lemma SteadyInsert(it: Items, listed: set<Name>, leaf: Name, env: Env)
    requires it.known.Keys + it.added.Keys == listed && env.present == listed
    ensures var r := InsertItem(it, leaf, env); r.known.Keys + r.added.Keys == listed
  {
    var r := InsertItem(it, leaf, env);
    assert leaf in it.known ==> r.known.Keys == it.known.Keys;
  }

  lemma MergedNames(it: Items)
    ensures MergeItems(it).known.Keys + MergeItems(it).added.Keys == it.known.Keys + it.added.Keys
  {
    assert MergeItems(it).known.Keys == it.known.Keys + it.added.Keys;
  }

  lemma StepOnTheWay(s: Dir, x: Input, listed: set<Name>)
    requires OnTheWay(s, listed) && Enabled(s, x.event) && Steady(x.env, listed)
    requires x.event.EIdle? || x.event.ETimeout?
    ensures OnTheWay(Step(s, x), listed)
  {
    StepKeeps(s, x);
    match x.event
    case EIdle(leaf) =>
      RecheckKeeps(s, leaf, x.env, x.pick);
      RecheckExact(s, leaf, x.env, x.pick);
      if s.ctl.needsUpdate {
        PopKeeps(s, leaf, x.env);
        var p := Pop(s, leaf, x.env);
        if p.items.recheck == {} {
          FinishKeeps(p);
          SteadyRescan(Finish(p), listed, x.env, x.pick);
        }
      } else {
        SteadyRecheck(s, listed, x.env, leaf, x.pick);
      }
    case ETimeout =>
      if !s.ctl.scanning && s.ctl.needsUpdate {
        RescanKeeps(s, x.env, x.pick);
        SteadyRescan(s, listed, x.env, x.pick);
      }
  }

  /** From any rest state in which a rescan is requested, scanning or not, once only timeouts
      and idle callbacks follow: when they have come to rest the cache knows the directory and
      every watcher shows what passes its filter of it; until then one of them can run. */
  lemma {:induction false} ReportedChangeShown(s: Dir, xs: seq<Input>, listed: set<Name>)
    requires OnTheWay(s, listed) && IsRun(s, xs)
    requires forall i :: 0 <= i < |xs| ==> (xs[i].event.EIdle? || xs[i].event.ETimeout?) && Steady(xs[i].env, listed)
    ensures var r := RunFrom(s, xs);
      if r.ctl.scanning then exists leaf :: Enabled(r, EIdle(leaf))
      else if r.ctl.needsUpdate then Enabled(r, ETimeout)
      else r.items.known.Keys == listed && Exact(r)
    decreases |xs|
  {
    if xs == [] {
      if s.ctl.scanning {
        var leaf :| leaf in s.items.recheck;
        assert Enabled(s, EIdle(leaf));
      }
    } else {
      StepOnTheWay(s, xs[0], listed);
      assert forall i :: 0 <= i < |xs[1..]| ==> xs[1..][i] == xs[i + 1];
      ReportedChangeShown(Step(s, xs[0]), xs[1..], listed);
    }
  }

  // ----- when a name can be lost

  /** Nobody has missed anything and the pending batch will not make anyone miss a name. */
  ghost predicate Unmissed(s: Dir) {
    && (forall i :: 0 <= i < |s.users| ==> s.users[i].missed == {})
    && s.items.added.Keys !! s.items.gone
  }

  /** The event restats a name whose removal is still waiting to be announced, and the name
      is back.  A caller can see this before the event. */
  predicate Revives(s: Dir, x: Input) {
    match x.event
    case EAttach(_, _) => x.pick in s.items.gone && x.pick in x.env.present
    case EIdle(leaf) => leaf in s.items.gone && leaf in x.env.present
    case ECheck(leaf) => leaf in s.items.gone && leaf in x.env.present
    case EUpdateItem(leaf) => leaf in s.items.gone && leaf in x.env.present
    case _ => false
  }

  /** One merge, exactly: a watcher that has missed nothing shows the filtered contents
      afterwards if and only if no item it shows was in the batch both as added and as gone. */
  lemma MergeExact(s: Dir, i: int)
    requires Core(s.items, s.users) && 0 <= i < |s.users| && s.users[i].missed == {}
    ensures var u := Merge(s).users[i];
      u.view == u.Visible(Merge(s).items.known.Keys)
      <==> u.Visible(s.items.added.Keys * s.items.gone) == {}
  {
  }

  lemma MergeUnmissed(s: Dir)
    requires Core(s.items, s.users) && Unmissed(s)
    ensures Unmissed(Merge(s))
  {
  }

  lemma RelistUnmissed(s: Dir, names: set<Name>)
    requires Core(s.items, s.users) && Unmissed(s)
    ensures Unmissed(Relist(s, names))
  {
  }

  lemma {:induction false} RescanUnmissed(s: Dir, env: Env, pick: Name)
    requires Core(s.items, s.users) && Unmissed(s) && !s.ctl.scanning && !s.ctl.idle
    ensures Unmissed(Rescan(s, env, pick))
    ensures env.listing.Listed? ==> Rescan(s, env, pick).items.gone == {}
    ensures Rescan(s, env, pick).items.gone <= s.items.gone
    decreases 2
  {
    var s0 := s.(ctl := s.ctl.(needsUpdate := false, error := !env.listing.Listed?));
    match env.listing
    case StatFailed(close) => assert Unmissed(RemoveMissing(s0, {}));
    case OpenFailed =>
    case Listed(names) =>
      var s1 := Relist(s0, names);
      RelistIsListing(s0, names);
      RelistUnmissed(s0, names);
      QueueKeeps(s1.items, s1.users, Watched(s1.users));
      var s2 := s1.(items := QueueItems(s1.items, Watched(s1.users)));
      SetIdleUnmissed(s2, env, pick);
      SetIdleKeeps(s2, env, pick);
      MergeUnmissed(SetIdle(s2, env, pick));
  }

  lemma PopUnmissed(s: Dir, leaf: Name, env: Env)
    requires Core(s.items, s.users) && Unmissed(s)
    requires !(leaf in s.items.gone && leaf in env.present)
    ensures Unmissed(Pop(s, leaf, env))
  {
  }

  lemma FinishUnmissed(s: Dir)
    requires Core(s.items, s.users) && Unmissed(s)
    ensures Unmissed(Finish(s))
  {
  }

  lemma {:induction false} RecheckUnmissed(s: Dir, leaf: Name, env: Env, pick: Name)
    requires Core(s.items, s.users) && Unmissed(s) && s.ctl.scanning && s.ctl.idle && s.users != []
    requires !(leaf in s.items.gone && leaf in env.present)
    ensures Unmissed(Recheck(s, leaf, env, pick))
    decreases if s.ctl.needsUpdate then 3 else 0
  {
    PopKeeps(s, leaf, env);
    PopUnmissed(s, leaf, env);
    var s1 := Pop(s, leaf, env);
    if s1.items.recheck == {} {
      FinishUnmissed(s1);
      FinishKeeps(s1);
      if s.ctl.needsUpdate { RescanUnmissed(Finish(s1), env, pick); }
    }
  }

  lemma {:induction false} SetIdleUnmissed(s: Dir, env: Env, pick: Name)
    requires Core(s.items, s.users) && Unmissed(s) && (s.ctl.idle ==> s.ctl.scanning)
    requires !(pick in s.items.gone && pick in env.present)
    ensures Unmissed(SetIdle(s, env, pick))
    decreases if s.ctl.needsUpdate then 4 else 1
  {
    if s.items.recheck != {} && s.users != [] {
      var s1 := SetScanning(s, true);
      if !s1.ctl.idle {
        RecheckUnmissed(s1.(ctl := s1.ctl.(idle := true)), pick, env, pick);
      }
    }
  }

  lemma AttachUnmissed(s: Dir, id: nat, h: bool, env: Env, pick: Name)
    requires Inv(s) && Unmissed(s)
    requires !(pick in s.items.gone && pick in env.present)
    ensures Unmissed(Attach(s, id, h, env, pick))
  {
    GreetAgrees(s, id, h);
    var s1 := s.(users := [OnAdd(NewUser(id, h), s.items.known.Keys, {})] + s.users);
    if s.ctl.needsUpdate && !s.ctl.scanning { RescanUnmissed(s1, env, pick); }
    GreetKeeps(s, id, h, env, pick);
    SetIdleUnmissed(Greet(s, id, h, env, pick), env, pick);
  }

  lemma DetachUnmissed(s: Dir, id: nat, env: Env, pick: Name)
    requires Inv(s) && Unmissed(s)
    ensures Unmissed(Detach(s, id, env, pick))
  {
    if Attached(s.users, id) {
      var s1 := s.(users := WithoutFirst(s.users, id));
      forall i | 0 <= i < |s1.users| ensures s1.users[i].missed == {} {
        WithoutFirstFrom(s.users, id, i);
      }
      assert s1.items.recheck != {} && s1.users != [] ==> s1.ctl.idle;
    }
  }

  lemma StepUnmissed(s: Dir, x: Input)
    requires Inv(s) && Unmissed(s) && Enabled(s, x.event) && !Revives(s, x)
    ensures Unmissed(Step(s, x))
  {
    match x.event
    case EAttach(id, h) => AttachUnmissed(s, id, h, x.env, x.pick);
    case EDetach(id) => DetachUnmissed(s, id, x.env, x.pick);
    case EIdle(leaf) => RecheckUnmissed(s, leaf, x.env, x.pick);
    case EUpdate => if !s.ctl.scanning { RescanUnmissed(s, x.env, x.pick); }
    case EMonitor =>
    case ETimeout => if !s.ctl.scanning && s.ctl.needsUpdate { RescanUnmissed(s, x.env, x.pick); }
    case ECheck(leaf) =>
    case EUpdateItem(leaf) =>
      InsertKeeps(s.items, s.users, leaf, x.env);
      MergeUnmissed(Insert(s, leaf, x.env));
    case ENotify => MergeUnmissed(s);
  }

  predicate NoneRevives(s: Dir, xs: seq<Input>)
    decreases |xs|
  {
    xs == [] || (!Revives(s, xs[0]) && NoneRevives(Step(s, xs[0]), xs[1..]))
  }

  /** Over every run in which no event restats a name that is back while its removal is
      unannounced, no watcher ever loses a name: each view lies between the known items that
      pass its filter and those plus the items that are gone. */
  lemma {:induction false} RunUnmissed(s: Dir, xs: seq<Input>)
    requires Inv(s) && Unmissed(s) && IsRun(s, xs) && NoneRevives(s, xs)
    ensures var r := RunFrom(s, xs);
      && Unmissed(r)
      && (forall i :: 0 <= i < |r.users| ==> var u := r.users[i];
            u.Visible(r.items.known.Keys) <= u.view <= u.Visible(r.items.known.Keys + r.items.gone))
    decreases |xs|
  {
    if xs == [] {
      forall i | 0 <= i < |s.users|
        ensures var u := s.users[i];
          u.Visible(s.items.known.Keys) <= u.view <= u.Visible(s.items.known.Keys + s.items.gone)
      {
        assert Agrees(s.items, s.users[i]);
      }
    } else {
      StepKeeps(s, xs[0]);
      StepUnmissed(s, xs[0]);
      RunUnmissed(Step(s, xs[0]), xs[1..]);
    }
  }

  /** The condition is needed.  A run of a new directory: a window is attached and shown the
      item "a"; the item is found gone, found again before the removal is announced, and after
      the delayed merge it is known but not displayed. */
  lemma RevivalLosesName()
    ensures var there := Env(Listed({"a"}), {"a"}, {}); var away := Env(Listed({}), {}, {});
      var xs := [Input(EAttach(0, true), there, "a"), Input(ECheck("a"), away, "a"),
                 Input(ECheck("a"), there, "a"), Input(ENotify, there, "a")];
      && IsRun(NEW_DIR, xs)
      && RunFrom(NEW_DIR, xs[..1]).items.known.Keys == {"a"} && Exact(RunFrom(NEW_DIR, xs[..1]))
      && Revives(RunFrom(NEW_DIR, xs[..2]), xs[2])
      && RunFrom(NEW_DIR, xs).items.known.Keys == {"a"} && |RunFrom(NEW_DIR, xs).users| == 1
      && RunFrom(NEW_DIR, xs).users[0].view == {}
  {
    hide Attach, Insert, Merge, Exact;
    var there, away := Env(Listed({"a"}), {"a"}, {}), Env(Listed({}), {}, {});
    var xs := [Input(EAttach(0, true), there, "a"), Input(ECheck("a"), away, "a"),
               Input(ECheck("a"), there, "a"), Input(ENotify, there, "a")];
    AttachShows(there);
    var s1 := Step(NEW_DIR, xs[0]);
    LaterLoses(s1, there, away);
    var s2 := Step(s1, xs[1]);
    var s3 := Step(s2, xs[2]);
    var s4 := Step(s3, xs[3]);
    assert xs[1..] == [xs[1], xs[2], xs[3]] && xs[1..][1..] == [xs[2], xs[3]] && xs[1..][1..][1..] == [xs[3]];
    assert RunFrom(s3, [xs[3]]) == s4 && IsRun(s3, [xs[3]]);
    assert RunFrom(s2, [xs[2], xs[3]]) == s4 && IsRun(s2, [xs[2], xs[3]]);
    assert RunFrom(s1, xs[1..]) == s4 && IsRun(s1, xs[1..]);
    assert xs[..1] == [xs[0]] && xs[..2] == [xs[0], xs[1]] && [xs[0], xs[1]][1..] == [xs[1]];
    assert RunFrom(s1, [xs[1]]) == s2;
  }

  lemma AttachShows(there: Env)
    requires there == Env(Listed({"a"}), {"a"}, {})
    ensures var r := Attach(NEW_DIR, 0, true, there, "a");
      r.items.known.Keys == {"a"} && Quiet(r.items) && |r.users| == 1 && Exact(r)
  {
    hide Rescan;
    var u := NewUser(0, true);
    assert OnAdd(u, NO_ITEMS.known.Keys, {}) == u && [u] + NEW_DIR.users == [u];
    var s := NEW_DIR.(users := [u]);
    FirstScan(s, there);
    var r := Rescan(s, there, "a");
    assert Greet(NEW_DIR, 0, true, there, "a") == r;
    assert SetIdle(r, there, "a") == r;
  }

  lemma FirstScan(s: Dir, there: Env)
    requires there == Env(Listed({"a"}), {"a"}, {}) && s == NEW_DIR.(users := [NewUser(0, true)])
    ensures var r := Rescan(s, there, "a");
      && r.items.known.Keys == {"a"} && Quiet(r.items) && |r.users| == 1 && Exact(r)
      && r.items.recheck == {} && !r.ctl.scanning && !r.ctl.idle
  {
    hide Rescan, Relist;
    assert Agrees(s.items, s.users[0]);
    var q := Queued(Requested(s), {"a"});
    assert {"a"} - {".", ".."} == {"a"};
    RescanScans(s, {"a"}, there, "a");
    assert Vanished(q * {"a"}, there) == {} && q - {"a"} == {};
  }

  lemma LaterLoses(s1: Dir, there: Env, away: Env)
    requires there == Env(Listed({"a"}), {"a"}, {}) && away == Env(Listed({}), {}, {})
    requires s1.items.known.Keys == {"a"} && Quiet(s1.items) && |s1.users| == 1 && Exact(s1)
    ensures var s2 := Insert(s1, "a", away); var s3 := Insert(s2, "a", there);
      && "a" in s2.items.gone && s3.ctl.notifyActive
      && Merge(s3).items.known.Keys == {"a"} && |Merge(s3).users| == 1 && Merge(s3).users[0].view == {}
  {
    assert !Ignored("a");
    var s2 := Insert(s1, "a", away);
    assert s2.items.known == map[] && s2.items.gone == {"a"};
    var s3 := Insert(s2, "a", there);
    assert s3.items.added.Keys == {"a"} && s3.items.known == map[] && s3.items.gone == {"a"};
    assert Merge(s3).users[0] == OnBatch(s3.users[0], {"a"}, {}, {"a"});
    assert Merge(s3).items.known.Keys == {"a"};
  }
}
