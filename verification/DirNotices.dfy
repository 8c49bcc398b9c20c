/** What a directory owes its windows at any time: the announcement of what a restat has found,
    the scanning indicator, and an answer to every request for a rescan. */
module DirNotices {
  import opened DirSpec
  import opened DirInvariants
  import opened DirTheorems

  // ----- one restat

  /** What restatting a leaf name makes of it, and that it touches no other.  A name that is
      there is known or pending afterwards and not flagged; one that is not there is not known.
      The windows are to be told exactly if it is new, changed or gone. */
  lemma RestatTells(s: Dir, leaf: Name, env: Env, n: Name)
    requires Core(s.items, s.users) && !Ignored(leaf)
    ensures var r, it := Insert(s, leaf, env).items, s.items;
      && (leaf in env.present ==>
            (leaf in r.known || leaf in r.added) && !IsFlagged(r, leaf) && leaf in r.stated)
      && (leaf !in env.present ==> leaf !in r.known && (leaf in r.added <==> leaf in it.added))
      && (leaf in r.gone <==> leaf in it.gone || (leaf in it.known && leaf !in env.present))
      && (leaf in r.up <==> leaf in it.up || (leaf in env.present && (leaf !in it.known || leaf in env.changed)))
      && (Insert(s, leaf, env).ctl.notifyActive <==>
            || s.ctl.notifyActive
            || if leaf in it.known then leaf !in env.present || leaf in env.changed else leaf in env.present)
      && (n != leaf ==>
            && (n in r.known <==> n in it.known) && (n in r.known ==> r.known[n] == it.known[n])
            && (n in r.added <==> n in it.added) && (n in r.added ==> r.added[n] == it.added[n])
            && (n in r.up <==> n in it.up) && (n in r.gone <==> n in it.gone))
      && r.recheck == it.recheck
  {
  }

  /** insert_item gives up on the names that begin with one or two dots and a newline; the
      directory itself and its parent are not among them. */
  lemma IgnoredIff(leaf: Name)
    ensures Ignored(leaf) <==> ".\n" <= leaf || "..\n" <= leaf
    ensures !Ignored(".") && !Ignored("..")
  {
  }

  // ----- a rescan that does not read the directory

  /** Of a directory that is gone nothing stays known, nor displayed but for what is still to be
      announced as gone, unless its windows are to be closed; one that cannot be opened keeps
      what it had.  There is an error to report unless the directory was read or is closed. */
  lemma RescanUnread(s: Dir, env: Env, pick: Name)
    requires Core(s.items, s.users) && !env.listing.Listed?
    ensures var r := Rescan(s, env, pick);
      && (env.listing == StatFailed(false) ==>
            r.items.known == map[] && forall i :: 0 <= i < |r.users| ==> r.users[i].view <= r.items.gone)
      && (env.listing != StatFailed(false) ==> r.items == s.items && r.users == s.users)
      && r.ctl == s.ctl.(needsUpdate := false, error := env.listing != StatFailed(true))
  {
    var s0 := s.(ctl := s.ctl.(needsUpdate := false, error := true));
    if env.listing == StatFailed(false) {
      RemoveMissingKeeps(s0, {});
      var r := RemoveMissing(s0, {});
      forall i, n | 0 <= i < |r.users| && n in r.users[i].view ensures n in r.items.gone {
        assert Agrees(r.items, r.users[i]);
      }
    }
  }

  lemma SetIdleError(s: Dir, env: Env, pick: Name)
    requires !s.ctl.needsUpdate
    ensures SetIdle(s, env, pick).ctl.error == s.ctl.error
  {
    hide Rescan;
  }

  lemma RescanRead(s: Dir, env: Env, pick: Name)
    requires Core(s.items, s.users) && env.listing.Listed?
    ensures !Rescan(s, env, pick).ctl.error
  {
    hide Core, Merge, SetIdle, QueueItems, Relist;
    var s0 := Requested(s);
    RelistIsListing(s0, env.listing.names);
    var s1 := Relist(s0, env.listing.names);
    var s2 := s1.(items := QueueItems(s1.items, Watched(s1.users)));
    SetIdleError(s2, env, pick);
    MergeRest(SetIdle(s2, env, pick));
  }

  // ----- requests

  /** A request made while a scan runs is remembered, one that is reported by the file monitor
      waits for its timeout, and any other is honoured at once: in each case the directory is on
      its way to being shown. */
  lemma RequestOnTheWay(s: Dir, x: Input, listed: set<Name>)
    requires Inv(s) && s.users != [] && Steady(x.env, listed) && (x.event.EUpdate? || x.event.EMonitor?)
    ensures OnTheWay(Step(s, x), listed)
    ensures x.event.EMonitor? ==> Step(s, x).ctl.timeout && Step(s, x).ctl.needsUpdate
  {
    StepKeeps(s, x);
    if x.event.EUpdate? && !s.ctl.scanning {
      RescanKeeps(s, x.env, x.pick);
      SteadyRescan(s, listed, x.env, x.pick);
    }
  }

  /** dir_update when no scan runs, followed by the idle callbacks of the scan it starts. */
  lemma UpdateShowsDirectory(s: Dir, names: set<Name>, env: Env, pick: Name, xs: seq<Input>)
    requires Inv(s) && !s.ctl.scanning && s.users != [] && env.listing == Listed(names)
    requires Queued(Requested(s), names) != {} ==> pick in Queued(Requested(s), names)
    requires IsRun(s, [Input(EUpdate, env, pick)] + xs)
    requires forall i :: 0 <= i < |xs| ==> xs[i].event.EIdle? && xs[i].env == env
    ensures var q := Queued(Requested(s), names); var r := RunFrom(s, [Input(EUpdate, env, pick)] + xs);
      && (r.ctl.scanning <==> |xs| < |q - {pick}|)
      && (!r.ctl.scanning ==> ScanDone(r, (names - {".", ".."}) - Vanished(q, env), |s.users|))
  {
    hide RunFrom, IsRun, Step, ScanDone, Rescan, Queued, Requested, Vanished;
    RunSteps(s, Input(EUpdate, env, pick), xs);
    assert Step(s, Input(EUpdate, env, pick)) == Rescan(s, env, pick) by { UpdateRescans(s, env, pick); }
    RefreshShowsDirectory(s, names, env, pick, xs);
  }

  lemma UpdateRescans(s: Dir, env: Env, pick: Name)
    requires !s.ctl.scanning
    ensures Step(s, Input(EUpdate, env, pick)) == Rescan(s, env, pick)
  {
    hide Rescan;
  }

  lemma RunSteps(s: Dir, x: Input, xs: seq<Input>)
    ensures RunFrom(s, [x] + xs) == RunFrom(Step(s, x), xs)
    ensures IsRun(s, [x] + xs) ==> IsRun(Step(s, x), xs)
  {
    hide Step, Enabled;
    assert ([x] + xs)[0] == x && ([x] + xs)[1..] == xs;
  }

  // ----- what is pending, and the indicator

  /** A delayed notification is under way while there is anything to announce; and whatever is
      new is to be announced as changed as well. */
  ghost predicate Noticed(s: Dir) {
    && (s.items.added != map[] || s.items.up != {} || s.items.gone != {} ==> s.ctl.notifyActive)
    && s.items.added.Keys <= s.items.up
  }

  /** The indicators of the windows from number `from` on are right; the others may be on when
      no scan runs. */
  ghost predicate Indicated(s: Dir, from: nat) {
    && (forall i :: from <= i < |s.users| ==> s.users[i].busy == s.ctl.scanning)
    && (s.ctl.scanning ==> forall i :: 0 <= i < |s.users| ==> s.users[i].busy)
  }

  ghost predicate Told(s: Dir, from: nat) {
    Noticed(s) && Indicated(s, from)
  }

  lemma MergeTold(s: Dir, from: nat)
    requires Indicated(s, from)
    ensures Told(Merge(s), from)
  {
  }

  lemma SetScanningTold(s: Dir, scanning: bool, from: nat)
    requires Told(s, from)
    ensures Told(SetScanning(s, scanning), from)
  {
  }

  lemma InsertTold(s: Dir, leaf: Name, env: Env, from: nat)
    requires Told(s, from)
    ensures Told(Insert(s, leaf, env), from)
  {
  }

  lemma PopTold(s: Dir, leaf: Name, env: Env, from: nat)
    requires Told(s, from)
    ensures Told(Pop(s, leaf, env), from)
  {
  }

  lemma RelistTold(s: Dir, names: set<Name>, from: nat)
    requires !s.ctl.scanning
    ensures Told(Relist(s, names), from)
  {
    var s1 := Merge(SetScanning(s, true));
    assert forall i :: 0 <= i < |s1.users| ==> s1.users[i].busy;
    var s2 := RemoveMissing(s1, names - {".", ".."});
    assert forall i :: 0 <= i < |s2.users| ==> s2.users[i].busy;
  }

  lemma FinishTold(s: Dir, from: nat)
    requires Told(s, from)
    ensures Told(Finish(s), from)
  {
    MergeTold(s, from);
    SetScanningTold(Merge(s), false, from);
  }

  lemma {:induction false} RescanTold(s: Dir, env: Env, pick: Name, from: nat)
    requires Core(s.items, s.users) && !s.ctl.scanning && !s.ctl.idle && Told(s, from)
    ensures Told(Rescan(s, env, pick), from)
    decreases 2
  {
    hide Core, Relist, Merge, SetIdle;
    var s0 := s.(ctl := s.ctl.(needsUpdate := false, error := !env.listing.Listed?));
    if env.listing.Listed? {
      var s1 := Relist(s0, env.listing.names);
      RelistIsListing(s0, env.listing.names);
      RelistTold(s0, env.listing.names, from);
      QueueKeeps(s1.items, s1.users, Watched(s1.users));
      var s2 := s1.(items := QueueItems(s1.items, Watched(s1.users)));
      SetIdleTold(s2, env, pick, from);
      MergeTold(SetIdle(s2, env, pick), from);
    }
  }

  lemma {:induction false} RecheckTold(s: Dir, leaf: Name, env: Env, pick: Name, from: nat)
    requires Core(s.items, s.users) && s.ctl.scanning && s.ctl.idle && s.users != [] && Told(s, from)
    ensures Told(Recheck(s, leaf, env, pick), from)
    decreases if s.ctl.needsUpdate then 3 else 0
  {
    hide Core, Pop, Finish, Told;
    PopKeeps(s, leaf, env);
    PopTold(s, leaf, env, from);
    var s1 := Pop(s, leaf, env);
    if s1.items.recheck == {} {
      FinishTold(s1, from);
      FinishKeeps(s1);
      if s.ctl.needsUpdate { RescanTold(Finish(s1), env, pick, from); }
    }
  }

  lemma {:induction false} SetIdleTold(s: Dir, env: Env, pick: Name, from: nat)
    requires Core(s.items, s.users) && (s.ctl.idle ==> s.ctl.scanning) && Told(s, from)
    ensures Told(SetIdle(s, env, pick), from)
    decreases if s.ctl.needsUpdate then 4 else 1
  {
    hide Core, Recheck;
    SetScanningTold(s, false, from);
    if s.items.recheck != {} && s.users != [] {
      SetScanningTold(s, true, from);
      SetScanningKeeps(s, true);
      var s1 := SetScanning(s, true);
      if !s1.ctl.idle { RecheckTold(s1.(ctl := s1.ctl.(idle := true)), pick, env, pick, from); }
    }
  }

  /** The new window, which has its indicator on, is told if no scan runs. */
  lemma AttachTold(s: Dir, id: nat, h: bool, env: Env, pick: Name)
    requires Inv(s) && Told(s, 0)
    ensures Told(Attach(s, id, h, env, pick), 0)
  {
    hide Core, SetIdle, Rescan;
    GreetAgrees(s, id, h);
    var u := OnAdd(NewUser(id, h), s.items.known.Keys, {});
    var s1 := s.(users := [u] + s.users);
    assert Told(s1, 1);
    if RescansNow(s) { RescanTold(s1, env, pick, 1); }
    GreetKeeps(s, id, h, env, pick);
    SetIdleTold(Greet(s, id, h, env, pick), env, pick, 1);
  }

  lemma DetachTold(s: Dir, id: nat, env: Env, pick: Name)
    requires Inv(s) && Told(s, 0)
    ensures Told(Detach(s, id, env, pick), 0)
  {
    hide Core, SetIdle;
    if Attached(s.users, id) {
      var s1 := s.(users := WithoutFirst(s.users, id));
      DetachAgrees(s, id);
      forall i | 0 <= i < |s1.users| ensures s1.users[i].busy == s.ctl.scanning {
        WithoutFirstFrom(s.users, id, i);
      }
      SetIdleTold(s1, env, pick, 0);
    }
  }

  lemma StepTold(s: Dir, x: Input)
    requires Inv(s) && Enabled(s, x.event) && Told(s, 0)
    ensures Told(Step(s, x), 0)
  {
    hide Core, Attach, Detach, Recheck, Rescan, Merge, Insert;
    match x.event
    case EAttach(id, h) => AttachTold(s, id, h, x.env, x.pick);
    case EDetach(id) => DetachTold(s, id, x.env, x.pick);
    case EIdle(leaf) => RecheckTold(s, leaf, x.env, x.pick, 0);
    case EUpdate => if !s.ctl.scanning { RescanTold(s, x.env, x.pick, 0); }
    case EMonitor =>
    case ETimeout => if RescansNow(s) { RescanTold(s, x.env, x.pick, 0); }
    case ECheck(leaf) => InsertTold(s, leaf, x.env, 0);
    case EUpdateItem(leaf) =>
      InsertTold(s, leaf, x.env, 0);
      MergeTold(Insert(s, leaf, x.env), 0);
    case ENotify =>
      MergeTold(s, 0);
      NothingPending(s);
  }

  lemma NothingPending(s: Dir)
    ensures var r := Merge(s).items; r.added == map[] && r.up == {} && r.gone == {}
  {
  }

  lemma {:induction false} RunTold(s: Dir, xs: seq<Input>)
    requires Inv(s) && Told(s, 0) && IsRun(s, xs)
    ensures Told(RunFrom(s, xs), 0)
    decreases |xs|
  {
    hide Inv, Told, Step, Enabled;
    if xs != [] {
      StepKeeps(s, xs[0]);
      StepTold(s, xs[0]);
      RunTold(Step(s, xs[0]), xs[1..]);
    }
  }

  /** Over every run of a new directory the indicator of every window says whether a scan runs;
      and whatever a restat has found to be new, changed or gone is announced when the delayed
      notification fires, which is then under way; that leaves nothing to announce. */
  lemma RunsTell(xs: seq<Input>, env: Env, pick: Name)
    requires IsRun(NEW_DIR, xs)
    ensures var s := RunFrom(NEW_DIR, xs); var r := Step(s, Input(ENotify, env, pick));
      && (forall i :: 0 <= i < |s.users| ==> s.users[i].busy == s.ctl.scanning)
      && (s.items.added != map[] || s.items.up != {} || s.items.gone != {} ==> Enabled(s, ENotify))
      && r.items.added == map[] && r.items.up == {} && r.items.gone == {} && !r.ctl.notifyActive
  {
    RunTold(NEW_DIR, xs);
    NothingPending(RunFrom(NEW_DIR, xs));
  }

  // ----- hidden names

  /** Over every run a window that does not show hidden items displays no name with a leading
      dot, and when a scan has ended it displays all other known names; a window that shows them
      displays every known name then. */
  lemma RunsHide(xs: seq<Input>, i: nat, n: Name)
    requires IsRun(NEW_DIR, xs) && i < |RunFrom(NEW_DIR, xs).users|
    ensures var s := RunFrom(NEW_DIR, xs);
      && (n in s.users[i].view && n != "" && n[0] == '.' ==> s.users[i].showHidden)
      && (Exact(s) ==> (n in s.users[i].view <==>
            n in s.items.known && (s.users[i].showHidden || n == "" || n[0] != '.')))
  {
    RunsFromNew(xs);
    assert Agrees(RunFrom(NEW_DIR, xs).items, RunFrom(NEW_DIR, xs).users[i]);
  }
}
