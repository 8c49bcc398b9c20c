/** Names that a window displays more than once: insert_item does not look for an unknown name
    among the pending items, so one batch can hold two items of a name. */
module DirDoubles {
  import opened DirSpec
  import opened DirInvariants
  import opened DirTheorems

  /** Restatting `leaf` makes a second pending item of it.  A caller can see this before. */
  predicate Repeats(s: Dir, leaf: Name, env: Env) {
    !Ignored(leaf) && leaf in s.items.added && leaf in env.present
  }

  lemma InsertTwice(s: Dir, leaf: Name, env: Env)
    requires Core(s.items, s.users)
    ensures Insert(s, leaf, env).items.twice
      == s.items.twice + if Repeats(s, leaf, env) then {leaf} else {}
  {
  }

  /** What one merge does, exactly: a window displays a name more than once afterwards if and
      only if it did so before or the batch had it twice, and its removal was not in the batch
      as well. */
  lemma MergeDoubles(s: Dir, i: int)
    requires Core(s.items, s.users) && 0 <= i < |s.users|
    ensures var u := s.users[i];
      Merge(s).users[i].doubled == (u.doubled + u.Visible(s.items.twice)) - s.items.gone
  {
    assert Agrees(s.items, s.users[i]);
  }

  /** So an item restatted twice is displayed twice as soon as the batch is merged. */
  lemma RepeatDoubles(s: Dir, leaf: Name, env: Env, i: int)
    requires Core(s.items, s.users) && 0 <= i < |s.users| && s.users[i].Shows(leaf)
    requires Repeats(s, leaf, env) && leaf !in s.items.gone
    ensures leaf in Step(s, Input(EUpdateItem(leaf), env, "")).users[i].doubled
  {
    InsertKeeps(s.items, s.users, leaf, env);
    InsertTwice(s, leaf, env);
    MergeDoubles(Insert(s, leaf, env), i);
  }

  // ----- runs without such a restat

  /** Nothing is displayed twice, and nothing is pending twice. */
  ghost predicate Single(s: Dir) {
    (forall i :: 0 <= i < |s.users| ==> s.users[i].doubled == {}) && s.items.twice == {}
  }

  predicate RepeatsIn(s: Dir, x: Input) {
    match x.event
    case EAttach(_, _) => Repeats(s, x.pick, x.env)
    case EIdle(leaf) => Repeats(s, leaf, x.env)
    case ECheck(leaf) => Repeats(s, leaf, x.env)
    case EUpdateItem(leaf) => Repeats(s, leaf, x.env)
    case _ => false
  }

  lemma MergeSingle(s: Dir)
    requires Core(s.items, s.users) && Single(s)
    ensures Single(Merge(s))
  {
    forall i | 0 <= i < |s.users| ensures Merge(s).users[i].doubled == {} {
      MergeDoubles(s, i);
    }
  }

  lemma SetScanningSingle(s: Dir, scanning: bool)
    requires Single(s)
    ensures Single(SetScanning(s, scanning))
  {
  }

  lemma RelistSingle(s: Dir, names: set<Name>)
    requires Core(s.items, s.users) && Single(s)
    ensures Single(Relist(s, names)) && Relist(s, names).items.added == map[]
  {
    hide Merge, SetScanning, Core;
    var listed := names - {".", ".."};
    SetScanningKeeps(s, true);
    SetScanningSingle(s, true);
    MergeKeeps(SetScanning(s, true));
    MergeSingle(SetScanning(s, true));
    var s1 := Merge(SetScanning(s, true));
    Emptied(SetScanning(s, true));
    var s2 := RemoveMissing(s1, listed).(items := ListItems(s1.items, listed));
    ListedKeeps(s1, listed);
    MergeSingle(s2);
    Emptied(s2);
  }

  lemma Emptied(s: Dir)
    ensures Merge(s).items.added == map[] && Merge(s).items.twice == {}
  {
  }

  lemma ListedKeeps(s: Dir, listed: set<Name>)
    requires Core(s.items, s.users) && Single(s) && s.items.added == map[]
    ensures var r := RemoveMissing(s, listed).(items := ListItems(s.items, listed));
      Core(r.items, r.users) && Single(r)
  {
    RemoveMissingKeeps(s, listed);
    var s2 := RemoveMissing(s, listed);
    var r := s2.(items := ListItems(s.items, listed));
    assert r.items.known.Keys == s2.items.known.Keys;
    forall i | 0 <= i < |r.users| ensures Agrees(r.items, r.users[i]) {
      assert Agrees(s2.items, s2.users[i]);
    }
  }

  lemma {:induction false} RescanSingle(s: Dir, env: Env, pick: Name)
    requires Core(s.items, s.users) && Single(s) && !s.ctl.scanning && !s.ctl.idle
    ensures Single(Rescan(s, env, pick))
    ensures Rescan(s, env, pick).items.added.Keys <= s.items.added.Keys
    ensures env.listing.Listed? ==> Rescan(s, env, pick).items.added == map[]
    decreases 2
  {
    hide Relist, Merge, Core;
    var s0 := s.(ctl := s.ctl.(needsUpdate := false, error := !env.listing.Listed?));
    match env.listing
    case StatFailed(close) =>
    case OpenFailed =>
    case Listed(names) =>
      var s1 := Relist(s0, names);
      RelistIsListing(s0, names);
      RelistSingle(s0, names);
      QueueKeeps(s1.items, s1.users, Watched(s1.users));
      var s2 := s1.(items := QueueItems(s1.items, Watched(s1.users)));
      SetIdleSingle(s2, env, pick);
      SetIdleKeeps(s2, env, pick);
      MergeSingle(SetIdle(s2, env, pick));
      Emptied(SetIdle(s2, env, pick));
  }

  lemma PopSingle(s: Dir, leaf: Name, env: Env)
    requires Core(s.items, s.users) && Single(s) && !Repeats(s, leaf, env)
    ensures Single(Pop(s, leaf, env))
  {
  }

  lemma FinishSingle(s: Dir)
    requires Core(s.items, s.users) && Single(s)
    ensures Single(Finish(s))
  {
    hide Merge, Core;
    MergeSingle(s);
    SetScanningSingle(Merge(s), false);
  }

  lemma {:induction false} RecheckSingle(s: Dir, leaf: Name, env: Env, pick: Name)
    requires Core(s.items, s.users) && Single(s) && s.ctl.scanning && s.ctl.idle && s.users != []
    requires !Repeats(s, leaf, env)
    ensures Single(Recheck(s, leaf, env, pick))
    decreases if s.ctl.needsUpdate then 3 else 0
  {
    hide Core, Pop, Finish;
    PopKeeps(s, leaf, env);
    PopSingle(s, leaf, env);
    var s1 := Pop(s, leaf, env);
    if s1.items.recheck == {} {
      FinishSingle(s1);
      FinishKeeps(s1);
      if s.ctl.needsUpdate { RescanSingle(Finish(s1), env, pick); }
    }
  }

  lemma {:induction false} SetIdleSingle(s: Dir, env: Env, pick: Name)
    requires Core(s.items, s.users) && Single(s) && (s.ctl.idle ==> s.ctl.scanning) && !Repeats(s, pick, env)
    ensures Single(SetIdle(s, env, pick))
    decreases if s.ctl.needsUpdate then 4 else 1
  {
    hide Core, Recheck;
    SetScanningSingle(s, false);
    if s.items.recheck != {} && s.users != [] {
      SetScanningSingle(s, true);
      SetScanningKeeps(s, true);
      var s1 := SetScanning(s, true);
      if !s1.ctl.idle { RecheckSingle(s1.(ctl := s1.ctl.(idle := true)), pick, env, pick); }
    }
  }

  lemma AttachSingle(s: Dir, id: nat, h: bool, env: Env, pick: Name)
    requires Inv(s) && Single(s) && !Repeats(s, pick, env)
    ensures Single(Attach(s, id, h, env, pick))
  {
    hide Core, SetIdle, Rescan;
    GreetAgrees(s, id, h);
    var u := OnAdd(NewUser(id, h), s.items.known.Keys, {});
    var s1 := s.(users := [u] + s.users);
    assert Single(s1);
    if s.ctl.needsUpdate && !s.ctl.scanning { RescanSingle(s1, env, pick); }
    GreetKeeps(s, id, h, env, pick);
    SetIdleSingle(Greet(s, id, h, env, pick), env, pick);
  }

  lemma DetachSingle(s: Dir, id: nat, env: Env, pick: Name)
    requires Inv(s) && Single(s)
    ensures Single(Detach(s, id, env, pick))
  {
    if Attached(s.users, id) {
      var s1 := s.(users := WithoutFirst(s.users, id));
      forall i | 0 <= i < |s1.users| ensures s1.users[i].doubled == {} {
        WithoutFirstFrom(s.users, id, i);
      }
      assert s1.items.recheck != {} && s1.users != [] ==> s1.ctl.idle;
    }
  }

  lemma StepSingle(s: Dir, x: Input)
    requires Inv(s) && Single(s) && Enabled(s, x.event) && !RepeatsIn(s, x)
    ensures Single(Step(s, x))
  {
    hide Core, Attach, Detach, Recheck, Rescan, Merge;
    match x.event
    case EAttach(id, h) => AttachSingle(s, id, h, x.env, x.pick);
    case EDetach(id) => DetachSingle(s, id, x.env, x.pick);
    case EIdle(leaf) => RecheckSingle(s, leaf, x.env, x.pick);
    case EUpdate => if !s.ctl.scanning { RescanSingle(s, x.env, x.pick); }
    case EMonitor =>
    case ETimeout => if !s.ctl.scanning && s.ctl.needsUpdate { RescanSingle(s, x.env, x.pick); }
    case ECheck(leaf) => InsertTwice(s, leaf, x.env);
    case EUpdateItem(leaf) =>
      InsertKeeps(s.items, s.users, leaf, x.env);
      InsertTwice(s, leaf, x.env);
      MergeSingle(Insert(s, leaf, x.env));
    case ENotify => MergeSingle(s);
  }

  predicate NoneRepeats(s: Dir, xs: seq<Input>)
    decreases |xs|
  {
    xs == [] || (!RepeatsIn(s, xs[0]) && NoneRepeats(Step(s, xs[0]), xs[1..]))
  }

  /** Over every run in which no event restats a name that is pending already, no window ever
      displays a name more than once. */
  lemma {:induction false} RunSingle(s: Dir, xs: seq<Input>)
    requires Inv(s) && Single(s) && IsRun(s, xs) && NoneRepeats(s, xs)
    ensures Single(RunFrom(s, xs))
    decreases |xs|
  {
    hide Inv, Single, Step, Enabled, RepeatsIn;
    if xs != [] {
      StepKeeps(s, xs[0]);
      StepSingle(s, xs[0]);
      RunSingle(Step(s, xs[0]), xs[1..]);
    }
  }

  /** The condition is needed.  A run of a new directory: a window is attached to the empty
      directory, an item appears and is restatted twice, and after the delayed merge it is
      displayed twice. */
  lemma RepeatShowsTwice()
    ensures var empty, there := Env(Listed({}), {}, {}), Env(Listed({"a"}), {"a"}, {});
      var xs := [Input(EAttach(0, true), empty, ""), Input(ECheck("a"), there, ""), Input(ECheck("a"), there, ""),
                 Input(ENotify, there, "")];
      && IsRun(NEW_DIR, xs)
      && |RunFrom(NEW_DIR, xs).users| == 1 && RunFrom(NEW_DIR, xs).users[0].doubled == {"a"}
  {
    hide Attach, Insert, Merge;
    var empty, there := Env(Listed({}), {}, {}), Env(Listed({"a"}), {"a"}, {});
    var xs := [Input(EAttach(0, true), empty, ""), Input(ECheck("a"), there, ""), Input(ECheck("a"), there, ""),
               Input(ENotify, there, "")];
    AttachToNothing(empty);
    var s1 := Step(NEW_DIR, xs[0]);
    TwiceLater(s1, there);
    var s2 := Step(s1, xs[1]);
    var s3 := Step(s2, xs[2]);
    var s4 := Step(s3, xs[3]);
    assert xs[1..] == [xs[1], xs[2], xs[3]] && xs[1..][1..] == [xs[2], xs[3]] && xs[1..][1..][1..] == [xs[3]];
    assert RunFrom(s3, [xs[3]]) == s4 && IsRun(s3, [xs[3]]);
    assert RunFrom(s2, [xs[2], xs[3]]) == s4 && IsRun(s2, [xs[2], xs[3]]);
    assert RunFrom(s1, xs[1..]) == s4 && IsRun(s1, xs[1..]);
  }

  lemma AttachToNothing(empty: Env)
    requires empty == Env(Listed({}), {}, {})
    ensures var r := Attach(NEW_DIR, 0, true, empty, "");
      r.items.known == map[] && Quiet(r.items) && |r.users| == 1 && Exact(r) && Core(r.items, r.users)
  {
    hide Rescan;
    var u := NewUser(0, true);
    assert OnAdd(u, NO_ITEMS.known.Keys, {}) == u && [u] + NEW_DIR.users == [u];
    var s := NEW_DIR.(users := [u]);
    NothingToScan(s, empty);
    var r := Rescan(s, empty, "");
    assert Greet(NEW_DIR, 0, true, empty, "") == r;
    AttachKeeps(NEW_DIR, 0, true, empty, "");
    assert SetIdle(r, empty, "") == r;
  }

  lemma NothingToScan(s: Dir, empty: Env)
    requires empty == Env(Listed({}), {}, {}) && s == NEW_DIR.(users := [NewUser(0, true)])
    ensures var r := Rescan(s, empty, "");
      && r.items.known == map[] && Quiet(r.items) && |r.users| == 1 && Exact(r)
      && r.items.recheck == {} && !r.ctl.scanning && !r.ctl.idle
  {
    hide Rescan, Relist;
    assert Agrees(s.items, s.users[0]);
    assert Queued(Requested(s), {}) == {};
    RescanScans(s, {}, empty, "");
  }

  lemma TwiceLater(s: Dir, there: Env)
    requires there == Env(Listed({"a"}), {"a"}, {}) && Core(s.items, s.users)
    requires s.items.known == map[] && Quiet(s.items) && |s.users| == 1 && Exact(s)
    ensures var s3 := Insert(Insert(s, "a", there), "a", there);
      s3.ctl.notifyActive && |Merge(s3).users| == 1 && Merge(s3).users[0].doubled == {"a"}
  {
    assert !Ignored("a");
    var s2 := Insert(s, "a", there);
    var s3 := Insert(s2, "a", there);
    InsertKeeps(s.items, s.users, "a", there);
    InsertKeeps(s2.items, s2.users, "a", there);
    InsertTwice(s, "a", there);
    InsertTwice(s2, "a", there);
    MergeDoubles(s3, 0);
    assert s3.users[0].Visible({"a"}) == {"a"};
  }
}
