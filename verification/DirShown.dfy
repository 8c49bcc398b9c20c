/** What a window displays has been restatted or waits for it: no item stays a blank
    place-holder on the screen. */
module DirShown {
  import opened DirSpec
  import opened DirInvariants
  import opened DirTheorems

  // ----- the flag, the recheck list and the restats

  /** An item that is not flagged is on the recheck list or has been restatted since the
      directory was listed (or has a name that insert_item gives up on); a flagged one is
      neither. */
  ghost predicate Stated(it: Items) {
    && (forall n :: n in it.known ==>
          if it.known[n] then n !in it.recheck && n !in it.stated
          else n in it.recheck || n in it.stated || Ignored(n))
    && (forall n :: n in it.added ==> !it.added[n] && n in it.stated)
  }

  lemma InsertStated(s: Dir, leaf: Name, env: Env)
    requires Core(s.items, s.users) && Stated(s.items)
    ensures Stated(Insert(s, leaf, env).items)
  {
  }

  lemma PopStated(s: Dir, leaf: Name, env: Env)
    requires Core(s.items, s.users) && Stated(s.items)
    ensures Stated(Pop(s, leaf, env).items)
  {
  }

  lemma MergeStated(it: Items)
    requires Tidy(it) && Stated(it)
    ensures Stated(MergeItems(it))
  {
  }

  lemma QueueStated(it: Items, view: set<Name>)
    requires Stated(it)
    ensures Stated(QueueItems(it, view))
  {
  }

  lemma DropStated(s: Dir, keep: set<Name>)
    requires Stated(s.items)
    ensures Stated(RemoveMissing(s, keep).items)
  {
  }

  lemma {:induction false} RescanStated(s: Dir, env: Env, pick: Name)
    requires Core(s.items, s.users) && !s.ctl.scanning && !s.ctl.idle && Stated(s.items)
    ensures Stated(Rescan(s, env, pick).items)
    decreases 2
  {
    hide Stated, Relist, Core, Merge;
    var s0 := s.(ctl := s.ctl.(needsUpdate := false, error := !env.listing.Listed?));
    match env.listing
    case StatFailed(close) => DropStated(s0, {});
    case OpenFailed =>
    case Listed(names) =>
      var s1 := Relist(s0, names);
      RelistIsListing(s0, names);
      AllFlagged(s1.items);
      QueueKeeps(s1.items, s1.users, Watched(s1.users));
      QueueStated(s1.items, Watched(s1.users));
      var s2 := s1.(items := QueueItems(s1.items, Watched(s1.users)));
      SetIdleStated(s2, env, pick);
      SetIdleKeeps(s2, env, pick);
      MergedStated(SetIdle(s2, env, pick));
  }

  lemma AllFlagged(it: Items)
    requires it.recheck == {} && it.stated == {} && it.added == map[] && forall n :: n in it.known ==> it.known[n]
    ensures Stated(it)
  {
  }

  lemma MergedStated(s: Dir)
    requires Core(s.items, s.users) && Stated(s.items)
    ensures Stated(Merge(s).items)
  {
    MergeStated(s.items);
  }

  lemma FinishStated(s: Dir)
    requires Core(s.items, s.users) && Stated(s.items)
    ensures Stated(Finish(s).items)
  {
    MergeStated(s.items);
  }

  lemma {:induction false} RecheckStated(s: Dir, leaf: Name, env: Env, pick: Name)
    requires Core(s.items, s.users) && s.ctl.scanning && s.ctl.idle && s.users != [] && Stated(s.items)
    ensures Stated(Recheck(s, leaf, env, pick).items)
    decreases if s.ctl.needsUpdate then 3 else 0
  {
    hide Stated, Core, Pop, Finish;
    PopKeeps(s, leaf, env);
    PopStated(s, leaf, env);
    var s1 := Pop(s, leaf, env);
    if s1.items.recheck == {} {
      FinishStated(s1);
      FinishKeeps(s1);
      if s.ctl.needsUpdate { RescanStated(Finish(s1), env, pick); }
    }
  }

  lemma {:induction false} SetIdleStated(s: Dir, env: Env, pick: Name)
    requires Core(s.items, s.users) && (s.ctl.idle ==> s.ctl.scanning) && Stated(s.items)
    ensures Stated(SetIdle(s, env, pick).items)
    decreases if s.ctl.needsUpdate then 4 else 1
  {
    hide Stated, Core, Recheck;
    if s.items.recheck != {} && s.users != [] {
      SetScanningKeeps(s, true);
      var s1 := SetScanning(s, true);
      if !s1.ctl.idle { RecheckStated(s1.(ctl := s1.ctl.(idle := true)), pick, env, pick); }
    }
  }

  lemma GreetStated(s: Dir, id: nat, h: bool, env: Env, pick: Name)
    requires Inv(s) && Stated(s.items)
    ensures Stated(Greet(s, id, h, env, pick).items)
  {
    hide Stated, Core, Rescan;
    GreetAgrees(s, id, h);
    var u := OnAdd(NewUser(id, h), s.items.known.Keys, {});
    if RescansNow(s) {
      RescanStated(s.(users := [u] + s.users), env, pick);
    } else {
      QueueStated(s.items, u.view);
    }
  }

  lemma DetachStated(s: Dir, id: nat, env: Env, pick: Name)
    requires Inv(s) && Stated(s.items)
    ensures Stated(Detach(s, id, env, pick).items)
  {
    hide Stated, SetIdle, Core;
    if Attached(s.users, id) {
      DetachAgrees(s, id);
      SetIdleStated(s.(users := WithoutFirst(s.users, id)), env, pick);
    }
  }

  /** Every event keeps that. */
  lemma StepStated(s: Dir, x: Input)
    requires Inv(s) && Enabled(s, x.event) && Stated(s.items)
    ensures Stated(Step(s, x).items)
  {
    hide Stated, Core, Greet, Detach, SetIdle, Recheck, Rescan, Merge;
    match x.event
    case EAttach(id, h) =>
      GreetStated(s, id, h, x.env, x.pick);
      GreetKeeps(s, id, h, x.env, x.pick);
      SetIdleStated(Greet(s, id, h, x.env, x.pick), x.env, x.pick);
    case EDetach(id) => DetachStated(s, id, x.env, x.pick);
    case EIdle(leaf) => RecheckStated(s, leaf, x.env, x.pick);
    case EUpdate => if !s.ctl.scanning { RescanStated(s, x.env, x.pick); }
    case EMonitor =>
    case ETimeout => if RescansNow(s) { RescanStated(s, x.env, x.pick); }
    case ECheck(leaf) => InsertStated(s, leaf, x.env);
    case EUpdateItem(leaf) =>
      InsertStated(s, leaf, x.env);
      InsertKeeps(s.items, s.users, leaf, x.env);
      MergedStated(Insert(s, leaf, x.env));
    case ENotify => MergedStated(s);
  }

  // ----- what is displayed

  /** No known item that passes the window's filter is still flagged. */
  ghost predicate NoneFlagged(it: Items, u: User) {
    forall n :: n in it.known && u.Shows(n) ==> !it.known[n]
  }

  ghost predicate Shown(it: Items, us: seq<User>) {
    forall i :: 0 <= i < |us| ==> NoneFlagged(it, us[i])
  }

  /** The filters of the windows are those of `us`. */
  ghost predicate SameFilters(us: seq<User>, vs: seq<User>) {
    |us| == |vs| && forall i :: 0 <= i < |us| ==> us[i].showHidden == vs[i].showHidden
  }

  lemma ShownFewer(it: Items, r: Items, us: seq<User>, vs: seq<User>)
    requires Shown(it, us) && SameFilters(us, vs)
    requires forall n :: n in r.known && r.known[n] ==> n in it.known && it.known[n]
    ensures Shown(r, vs)
  {
    forall i, n | 0 <= i < |vs| && n in r.known && vs[i].Shows(n) ensures !r.known[n] {
      assert NoneFlagged(it, us[i]);
      assert us[i].Shows(n);
    }
  }

  lemma MergeShown(s: Dir)
    requires Core(s.items, s.users) && Stated(s.items) && Shown(s.items, s.users)
    ensures Shown(Merge(s).items, Merge(s).users)
  {
    ShownFewer(s.items, Merge(s).items, s.users, Merge(s).users);
  }

  lemma SetScanningShown(s: Dir, scanning: bool)
    requires Shown(s.items, s.users)
    ensures Shown(SetScanning(s, scanning).items, SetScanning(s, scanning).users)
  {
    ShownFewer(s.items, s.items, s.users, SetScanning(s, scanning).users);
  }

  lemma PopShown(s: Dir, leaf: Name, env: Env)
    requires Shown(s.items, s.users)
    ensures Shown(Pop(s, leaf, env).items, Pop(s, leaf, env).users)
  {
    ShownFewer(s.items, Pop(s, leaf, env).items, s.users, s.users);
  }

  /** Right after a listing, asking every window what interests it leaves nothing flagged that
      is displayed: nobody has missed anything then. */
  lemma QueueShown(s: Dir)
    requires Core(s.items, s.users) && Unmissed(s)
    ensures Shown(QueueItems(s.items, Watched(s.users)), s.users)
  {
    var r := QueueItems(s.items, Watched(s.users));
    forall i, n | 0 <= i < |s.users| && n in r.known && s.users[i].Shows(n) ensures !r.known[n] {
      assert Agrees(s.items, s.users[i]) && s.users[i].missed == {};
      assert n in s.users[i].view;
    }
  }

  lemma FinishShown(s: Dir)
    requires Core(s.items, s.users) && Stated(s.items) && Shown(s.items, s.users)
    ensures Shown(Finish(s).items, Finish(s).users)
  {
    MergeShown(s);
    SetScanningShown(Merge(s), false);
  }

  /** A rescan that reads the directory flags everything and then asks every window; one that
      does not flags nothing. */
  lemma {:induction false} RescanShown(s: Dir, env: Env, pick: Name)
    requires Core(s.items, s.users) && Unmissed(s) && !s.ctl.scanning && !s.ctl.idle && Stated(s.items)
    requires Shown(s.items, s.users) || env.listing.Listed? || env.listing == StatFailed(false)
    ensures Shown(Rescan(s, env, pick).items, Rescan(s, env, pick).users)
    decreases 2
  {
    hide Stated, Relist, Core, Merge, Unmissed, Shown, SetIdle;
    var s0 := s.(ctl := s.ctl.(needsUpdate := false, error := !env.listing.Listed?));
    match env.listing
    case StatFailed(close) => if !close { NothingLeft(s0); }
    case OpenFailed =>
    case Listed(names) =>
      var s1 := Relist(s0, names);
      RelistIsListing(s0, names);
      SameUnmissed(s, s0);
      RelistUnmissed(s0, names);
      AllFlagged(s1.items);
      QueueKeeps(s1.items, s1.users, Watched(s1.users));
      QueueStated(s1.items, Watched(s1.users));
      QueueShown(s1);
      var s2 := s1.(items := QueueItems(s1.items, Watched(s1.users)));
      SameUnmissed(s1, s2);
      SetIdleShown(s2, env, pick);
      SetIdleStated(s2, env, pick);
      SetIdleKeeps(s2, env, pick);
      MergeShown(SetIdle(s2, env, pick));
  }

  lemma SameUnmissed(s: Dir, s0: Dir)
    requires Unmissed(s) && s0.items.added == s.items.added && s0.items.gone == s.items.gone && s0.users == s.users
    ensures Unmissed(s0)
  {
  }

  lemma NothingLeft(s: Dir)
    ensures Shown(RemoveMissing(s, {}).items, RemoveMissing(s, {}).users)
  {
  }

  lemma {:induction false} RecheckShown(s: Dir, leaf: Name, env: Env, pick: Name)
    requires Core(s.items, s.users) && Unmissed(s) && s.ctl.scanning && s.ctl.idle && s.users != [] && Stated(s.items)
    requires !(leaf in s.items.gone && leaf in env.present) && Shown(s.items, s.users)
    ensures Shown(Recheck(s, leaf, env, pick).items, Recheck(s, leaf, env, pick).users)
    decreases if s.ctl.needsUpdate then 3 else 0
  {
    hide Stated, Core, Pop, Finish, Unmissed, Shown;
    PopKeeps(s, leaf, env);
    PopStated(s, leaf, env);
    PopShown(s, leaf, env);
    PopUnmissed(s, leaf, env);
    var s1 := Pop(s, leaf, env);
    if s1.items.recheck == {} {
      FinishStated(s1);
      FinishShown(s1);
      FinishUnmissed(s1);
      FinishKeeps(s1);
      if s.ctl.needsUpdate { RescanShown(Finish(s1), env, pick); }
    }
  }

  lemma {:induction false} SetIdleShown(s: Dir, env: Env, pick: Name)
    requires Core(s.items, s.users) && (s.ctl.idle ==> s.ctl.scanning) && Stated(s.items)
    requires Unmissed(s) && !(pick in s.items.gone && pick in env.present) && Shown(s.items, s.users)
    ensures Shown(SetIdle(s, env, pick).items, SetIdle(s, env, pick).users)
    decreases if s.ctl.needsUpdate then 4 else 1
  {
    hide Stated, Core, Recheck, Shown, Unmissed, SetScanning;
    SetScanningShown(s, false);
    if s.items.recheck != {} && s.users != [] {
      SetScanningKeeps(s, true);
      SetScanningShown(s, true);
      ScanningRest(s, true);
      var s1 := SetScanning(s, true);
      StillUnmissed(s);
      if !s1.ctl.idle { RecheckShown(s1.(ctl := s1.ctl.(idle := true)), pick, env, pick); }
    }
  }

  lemma StillUnmissed(s: Dir)
    requires Unmissed(s)
    ensures var s1 := SetScanning(s, true); Unmissed(s1) && Unmissed(s1.(ctl := s1.ctl.(idle := true)))
    ensures s.users != [] ==> SetScanning(s, true).users != []
  {
  }

  // ----- attaching a window

  /** The new window's attaching reads the directory in vain, and there is a flagged item that
      passes its filter.  A caller can see this before. */
  predicate Overlooks(s: Dir, x: Input) {
    && x.event.EAttach? && RescansNow(s) && (x.env.listing == OpenFailed || x.env.listing == StatFailed(true))
    && exists n :: n in s.items.known && s.items.known[n] && NewUser(x.event.id, x.event.showHidden).Shows(n)
  }

  /** After an attach that does not rescan, no known item that passes the new window's filter is
      flagged: it has been asked what interests it. */
  lemma AttachAsks(s: Dir, id: nat, h: bool, env: Env, pick: Name)
    requires Inv(s) && Stated(s.items) && !RescansNow(s)
    ensures var r := Attach(s, id, h, env, pick);
      && |r.users| == |s.users| + 1 && r.users[0].id == id && r.users[0].showHidden == h
      && NoneFlagged(r.items, r.users[0])
  {
    var u := OnAdd(NewUser(id, h), s.items.known.Keys, {});
    var s1 := Greet(s, id, h, env, pick);
    assert NoneFlagged(s1.items, u) && s1.users[0] == u;
    GreetKeeps(s, id, h, env, pick);
    GreetStated(s, id, h, env, pick);
    SetIdleAsked(s1, env, pick);
  }

  /** Nothing is flagged without a rescan. */
  lemma SetIdleAsked(s: Dir, env: Env, pick: Name)
    requires Core(s.items, s.users) && Stated(s.items) && (s.ctl.idle ==> s.ctl.scanning) && s.users != []
    requires NoneFlagged(s.items, s.users[0]) && (s.ctl.needsUpdate ==> s.ctl.idle || s.items.recheck == {})
    ensures var r := SetIdle(s, env, pick);
      && |r.users| == |s.users| && r.users[0].id == s.users[0].id && r.users[0].showHidden == s.users[0].showHidden
      && NoneFlagged(r.items, r.users[0])
  {
    hide Core, Stated, NoneFlagged, Recheck, Pop, SetScanning;
    FirstUser(s, false);
    FirstUser(s, true);
    if s.items.recheck != {} && !s.ctl.idle {
      ScanningRest(s, true);
      SetScanningKeeps(s, true);
      var s1 := SetScanning(s, true);
      RecheckAsked(s1.(ctl := s1.ctl.(idle := true)), env, pick);
    }
    ScanningRest(s, false);
    ScanningRest(s, true);
  }

  /** The first window is the same before and after, and none of its items is flagged. */
  ghost predicate StillAsked(s: Dir, r: Dir) {
    && s.users != [] && |r.users| == |s.users|
    && r.users[0].id == s.users[0].id && r.users[0].showHidden == s.users[0].showHidden
    && (NoneFlagged(s.items, s.users[0]) ==> NoneFlagged(r.items, r.users[0]))
  }

  lemma FirstUser(s: Dir, scanning: bool)
    requires s.users != []
    ensures StillAsked(s, SetScanning(s, scanning))
  {
    var r := SetScanning(s, scanning);
    ShownFirst(s, r);
  }

  lemma ShownFirst(s: Dir, r: Dir)
    requires s.users != [] && |r.users| == |s.users|
    requires r.users[0].id == s.users[0].id && r.users[0].showHidden == s.users[0].showHidden
    requires forall n :: n in r.items.known && r.items.known[n] ==> n in s.items.known && s.items.known[n]
    ensures StillAsked(s, r)
  {
    forall n | NoneFlagged(s.items, s.users[0]) && n in r.items.known && r.users[0].Shows(n) ensures !r.items.known[n] {
      assert s.users[0].Shows(n);
    }
  }

  lemma RecheckAsked(s: Dir, env: Env, pick: Name)
    requires Core(s.items, s.users) && Stated(s.items) && s.users != [] && !s.ctl.needsUpdate
    ensures StillAsked(s, Recheck(s, pick, env, pick))
  {
    hide Stated, Core, Pop, Finish;
    PopKeeps(s, pick, env);
    PopStated(s, pick, env);
    PopFirst(s, pick, env);
    var p := Pop(s, pick, env);
    FinishFirst(p);
    assert Recheck(s, pick, env, pick) == p || Recheck(s, pick, env, pick) == Finish(p);
  }

  lemma PopFirst(s: Dir, leaf: Name, env: Env)
    requires s.users != []
    ensures StillAsked(s, Pop(s, leaf, env))
  {
    ShownFirst(s, Pop(s, leaf, env));
  }

  lemma FinishFirst(s: Dir)
    requires Core(s.items, s.users) && Stated(s.items) && s.users != []
    ensures StillAsked(s, Finish(s))
  {
    ShownFirst(s, Finish(s));
  }

  lemma GreetShown(s: Dir, id: nat, h: bool, env: Env, pick: Name)
    requires Inv(s) && Unmissed(s) && Stated(s.items) && Shown(s.items, s.users)
    requires !Overlooks(s, Input(EAttach(id, h), env, pick))
    ensures var r := Greet(s, id, h, env, pick); Shown(r.items, r.users) && Unmissed(r) && r.items.gone <= s.items.gone
  {
    hide Rescan, Stated;
    GreetAgrees(s, id, h);
    var u := OnAdd(NewUser(id, h), s.items.known.Keys, {});
    var s1 := s.(users := [u] + s.users);
    if RescansNow(s) {
      if !env.listing.Listed? && env.listing != StatFailed(false) { JoinsShown(s, u); }
      RescanShown(s1, env, pick);
      RescanUnmissed(s1, env, pick);
    } else {
      AskedShown(s, u);
    }
  }

  lemma JoinsShown(s: Dir, u: User)
    requires Shown(s.items, s.users) && NoneFlagged(s.items, u)
    ensures Shown(s.items, [u] + s.users)
  {
  }

  lemma AskedShown(s: Dir, u: User)
    requires Shown(s.items, s.users) && u.view == u.Visible(s.items.known.Keys)
    ensures Shown(QueueItems(s.items, u.view), [u] + s.users)
  {
    var r := QueueItems(s.items, u.view);
    forall i, n | 0 <= i < |[u] + s.users| && n in r.known && ([u] + s.users)[i].Shows(n) ensures !r.known[n] {
      if i > 0 { assert NoneFlagged(s.items, s.users[i - 1]); }
    }
  }

  lemma AttachShown(s: Dir, id: nat, h: bool, env: Env, pick: Name)
    requires Inv(s) && Unmissed(s) && Stated(s.items) && Shown(s.items, s.users)
    requires !(pick in s.items.gone && pick in env.present)
    requires !Overlooks(s, Input(EAttach(id, h), env, pick))
    ensures Shown(Attach(s, id, h, env, pick).items, Attach(s, id, h, env, pick).users)
  {
    hide Greet, SetIdle, Stated, Shown, Unmissed;
    GreetShown(s, id, h, env, pick);
    GreetKeeps(s, id, h, env, pick);
    GreetStated(s, id, h, env, pick);
    var s1 := Greet(s, id, h, env, pick);
    SetIdleShown(s1, env, pick);
    var s2 := SetIdle(s1, env, pick);
    var r := Attach(s, id, h, env, pick);
    ShownFewer(s2.items, r.items, s2.users, r.users);
  }

  lemma DetachShown(s: Dir, id: nat, env: Env, pick: Name)
    requires Inv(s) && Unmissed(s) && Stated(s.items) && Shown(s.items, s.users)
    ensures Shown(Detach(s, id, env, pick).items, Detach(s, id, env, pick).users)
  {
    if Attached(s.users, id) {
      var s1 := s.(users := WithoutFirst(s.users, id));
      forall i | 0 <= i < |s1.users| ensures NoneFlagged(s.items, s1.users[i]) {
        WithoutFirstFrom(s.users, id, i);
      }
      SetScanningShown(s1, false);
      SetScanningShown(s1, true);
    }
  }

  lemma StepShown(s: Dir, x: Input)
    requires Inv(s) && Unmissed(s) && Stated(s.items) && Shown(s.items, s.users)
    requires Enabled(s, x.event) && !Revives(s, x) && !Overlooks(s, x)
    ensures Shown(Step(s, x).items, Step(s, x).users)
  {
    hide Core, Stated, Shown, Unmissed, Attach, Detach, Recheck, Rescan, Merge, SetIdle;
    match x.event
    case EAttach(id, h) => AttachShown(s, id, h, x.env, x.pick);
    case EDetach(id) => DetachShown(s, id, x.env, x.pick);
    case EIdle(leaf) => RecheckShown(s, leaf, x.env, x.pick);
    case EUpdate => if !s.ctl.scanning { RescanShown(s, x.env, x.pick); }
    case EMonitor =>
    case ETimeout => if RescansNow(s) { RescanShown(s, x.env, x.pick); }
    case ECheck(leaf) => InsertShown(s, leaf, x.env);
    case EUpdateItem(leaf) =>
      InsertShown(s, leaf, x.env);
      InsertStated(s, leaf, x.env);
      InsertKeeps(s.items, s.users, leaf, x.env);
      MergeShown(Insert(s, leaf, x.env));
    case ENotify => MergeShown(s);
  }

  lemma InsertShown(s: Dir, leaf: Name, env: Env)
    requires Shown(s.items, s.users)
    ensures Shown(Insert(s, leaf, env).items, Insert(s, leaf, env).users)
  {
    ShownFewer(s.items, Insert(s, leaf, env).items, s.users, s.users);
  }

  // ----- whole runs

  predicate NoneOverlooks(s: Dir, xs: seq<Input>)
    decreases |xs|
  {
    xs == [] || (!Overlooks(s, xs[0]) && NoneOverlooks(Step(s, xs[0]), xs[1..]))
  }

  lemma {:induction false} RunShown(s: Dir, xs: seq<Input>)
    requires Inv(s) && Unmissed(s) && Stated(s.items) && Shown(s.items, s.users)
    requires IsRun(s, xs) && NoneRevives(s, xs) && NoneOverlooks(s, xs)
    ensures var r := RunFrom(s, xs); Inv(r) && Stated(r.items) && Shown(r.items, r.users)
    decreases |xs|
  {
    hide Inv, Unmissed, Stated, Shown, Step, Enabled, Revives, Overlooks;
    if xs != [] {
      StepKeeps(s, xs[0]);
      StepUnmissed(s, xs[0]);
      StepStated(s, xs[0]);
      StepShown(s, xs[0]);
      RunShown(Step(s, xs[0]), xs[1..]);
    }
  }

  /** Over every run of a new directory in which no event restats a name that is back while its
      removal is unannounced and no attaching overlooks an item: a known item that passes the
      filter of a window is on the recheck list or has been restatted since the directory was
      last listed, and when no scan runs it has been (the names apart that insert_item gives up
      on). */
  lemma RunsRestat(xs: seq<Input>, i: nat, n: Name)
    requires IsRun(NEW_DIR, xs) && NoneRevives(NEW_DIR, xs) && NoneOverlooks(NEW_DIR, xs)
    requires var r := RunFrom(NEW_DIR, xs); i < |r.users| && n in r.items.known && r.users[i].Shows(n) && !Ignored(n)
    ensures var r := RunFrom(NEW_DIR, xs);
      && (n in r.items.recheck || n in r.items.stated)
      && (!r.ctl.scanning ==> n in r.items.stated)
  {
    RunShown(NEW_DIR, xs);
    var r := RunFrom(NEW_DIR, xs);
    assert NoneFlagged(r.items, r.users[i]);
  }

  /** The condition is exact for one step: what a window overlooks stays flagged before its
      eyes, when somebody has been watching and all is restatted. */
  lemma OverlookedStays(s: Dir, x: Input, n: Name)
    requires Inv(s) && Overlooks(s, x) && s.items.recheck == {}
    requires n in s.items.known && s.items.known[n] && NewUser(x.event.id, x.event.showHidden).Shows(n)
    ensures var r := Step(s, x);
      r.users != [] && n in r.items.known && r.items.known[n] && n in r.users[0].view && n !in r.items.recheck
  {
  }
}
