/** What every step of the directory cache keeps. */
module DirInvariants {
  import opened DirSpec

  /** What one watcher displays, against what the cache knows: exactly the known items that
      pass its filter, less those it has missed, plus items that are gone but whose removal
      has not been announced yet. */
  ghost predicate Agrees(it: Items, u: User) {
    && (forall n :: n in it.known && u.Shows(n) ==> (n in u.view <==> n !in u.missed))
    && (forall n :: n in u.view ==> u.Shows(n) && (n in it.known || n in it.gone))
    && u.doubled <= u.view
  }

  ghost predicate AllAgree(it: Items, us: seq<User>) {
    forall i :: 0 <= i < |us| ==> Agrees(it, us[i])
  }

  /** The item collections: nothing is both known and pending, and a name on the recheck
      list is not flagged as still having to be put there. */
  ghost predicate Tidy(it: Items) {
    && it.known.Keys !! it.added.Keys
    && it.known.Keys !! it.gone && it.twice <= it.added.Keys
    && (forall n :: n in it.recheck && n in it.known ==> !it.known[n])
    && (forall n :: n in it.recheck && n in it.added ==> !it.added[n])
  }

  ghost predicate Core(it: Items, us: seq<User>) {
    Tidy(it) && AllAgree(it, us)
  }

  /** Scanning, the idle callback, and having work to do for somebody are the same thing. */
  ghost predicate Busy(s: Dir) {
    && s.ctl.scanning == s.ctl.idle
    && (s.ctl.idle <==> s.items.recheck != {} && s.users != [])
  }

  /** No request for a rescan is forgotten. */
  ghost predicate Remembered(s: Dir) {
    s.ctl.needsUpdate ==> s.ctl.scanning || s.ctl.timeout || s.users == []
  }

  /** Holds whenever the main loop is in control. */
  ghost predicate Inv(s: Dir) {
    Core(s.items, s.users) && Busy(s) && Remembered(s)
  }

  // ----- one function at a time

  lemma InsertKeeps(it: Items, us: seq<User>, leaf: Name, env: Env)
    requires Core(it, us)
    ensures Core(InsertItem(it, leaf, env), us)
  {
  }

  /** The law of one merged batch: afterwards each view is exactly the filtered contents
      less the names missed, and a name is newly missed exactly when the batch had it both
      added and removed. */
  lemma MergeAgrees(s: Dir, i: int)
    requires Core(s.items, s.users) && 0 <= i < |s.users|
    ensures var r := Merge(s); var u := r.users[i];
      && u.view == u.Visible(r.items.known.Keys) - u.missed
      && u.missed == (s.users[i].missed - s.items.added.Keys) + s.items.added.Keys * s.items.gone
      && u.showHidden == s.users[i].showHidden && u.id == s.users[i].id
  {
  }

  lemma MergeKeeps(s: Dir)
    requires Core(s.items, s.users)
    ensures var r := Merge(s); Core(r.items, r.users) && |r.users| == |s.users|
  {
  }

  lemma SetScanningKeeps(s: Dir, scanning: bool)
    requires Core(s.items, s.users)
    ensures var r := SetScanning(s, scanning); Core(r.items, r.users) && |r.users| == |s.users|
  {
  }

  lemma RemoveMissingKeeps(s: Dir, keep: set<Name>)
    requires Core(s.items, s.users)
    ensures var r := RemoveMissing(s, keep);
      && Core(r.items, r.users) && |r.users| == |s.users|
      && r.items.known.Keys == s.items.known.Keys * keep
  {
  }

  lemma QueueKeeps(it: Items, us: seq<User>, view: set<Name>)
    requires Core(it, us)
    ensures var r := QueueItems(it, view); Core(r, us) && r.known.Keys == it.known.Keys
  {
  }

  /** Right after the second merge of a successful rescan the cache knows exactly the
      listing (without "." and ".."), every item is flagged and nothing is pending. */
  lemma RelistIsListing(s: Dir, names: set<Name>)
    requires Core(s.items, s.users)
    ensures var r := Relist(s, names);
      && r.items == Items(map n | n in names - {".", ".."} :: true, map[], {}, {}, {}, {}, {})
      && r.ctl == s.ctl.(scanning := true)
      && Core(r.items, r.users) && |r.users| == |s.users|
  {
    var listed := names - {".", ".."};
    SetScanningKeeps(s, true);
    MergeKeeps(SetScanning(s, true));
    var s1 := Merge(SetScanning(s, true));
    RemoveMissingKeeps(s1, listed);
    var s2 := RemoveMissing(s1, listed);
    var s3 := s2.(items := ListItems(s1.items, listed));
    assert s3.items.known.Keys == s2.items.known.Keys;
    forall i | 0 <= i < |s3.users|
      ensures Agrees(s3.items, s3.users[i])
    {
      assert Agrees(s2.items, s2.users[i]);
    }
    MergeKeeps(s3);
    assert Merge(s3).items.known == map n | n in listed :: true;
  }

  // ----- the mutually recursive part

  lemma {:induction false} RescanKeeps(s: Dir, env: Env, pick: Name)
    requires Core(s.items, s.users) && !s.ctl.scanning && !s.ctl.idle
    ensures var r := Rescan(s, env, pick);
      && Core(r.items, r.users) && |r.users| == |s.users|
      && !r.ctl.needsUpdate && r.ctl.timeout == s.ctl.timeout
      && (if env.listing.Listed? then Busy(r)
          else r.items.recheck == s.items.recheck && !r.ctl.scanning && !r.ctl.idle)
    decreases 2
  {
    var s0 := s.(ctl := s.ctl.(needsUpdate := false, error := !env.listing.Listed?));
    match env.listing
    case StatFailed(close) =>
      if !close { RemoveMissingKeeps(s0, {}); }
    case OpenFailed =>
    case Listed(names) =>
      var s1 := Relist(s0, names);
      RelistIsListing(s0, names);
      QueueKeeps(s1.items, s1.users, Watched(s1.users));
      var s2 := s1.(items := QueueItems(s1.items, Watched(s1.users)));
      SetIdleKeeps(s2, env, pick);
      MergeKeeps(SetIdle(s2, env, pick));
  }

  lemma PopKeeps(s: Dir, leaf: Name, env: Env)
    requires Core(s.items, s.users)
    ensures var r := Pop(s, leaf, env);
      && Core(r.items, r.users) && r.users == s.users
      && r.items.recheck == s.items.recheck - {leaf}
      && r.ctl == s.ctl.(notifyActive := r.ctl.notifyActive)
  {
    var it := s.items.(recheck := s.items.recheck - {leaf});
    forall i | 0 <= i < |s.users|
      ensures Agrees(it, s.users[i])
    {
      assert Agrees(s.items, s.users[i]);
    }
    InsertKeeps(it, s.users, leaf, env);
  }

  lemma FinishKeeps(s: Dir)
    requires Core(s.items, s.users) && s.items.recheck == {}
    ensures var r := Finish(s);
      && Core(r.items, r.users) && |r.users| == |s.users| && Busy(r)
      && r.ctl == s.ctl.(scanning := false, idle := false, haveScanned := true)
  {
    hide Core, Merge, SetScanning;
    MergeKeeps(s);
    SetScanningKeeps(Merge(s), false);
    MergeRest(s);
    ScanningRest(Merge(s), false);
  }

  /** What the two leave as it is. */
  lemma MergeRest(s: Dir)
    ensures Merge(s).ctl == s.ctl && Merge(s).items.recheck == s.items.recheck
  {
  }

  lemma ScanningRest(s: Dir, scanning: bool)
    ensures SetScanning(s, scanning).ctl == s.ctl.(scanning := scanning)
    ensures SetScanning(s, scanning).items == s.items
  {
  }

  lemma {:induction false} RecheckKeeps(s: Dir, leaf: Name, env: Env, pick: Name)
    requires Core(s.items, s.users) && s.ctl.scanning && s.ctl.idle && s.users != []
    ensures var r := Recheck(s, leaf, env, pick);
      && Core(r.items, r.users) && |r.users| == |s.users|
      && Busy(r) && r.ctl.timeout == s.ctl.timeout
      && (r.ctl.needsUpdate ==> s.ctl.needsUpdate && r.ctl.scanning)
    decreases if s.ctl.needsUpdate then 3 else 0
  {
    PopKeeps(s, leaf, env);
    var s1 := Pop(s, leaf, env);
    if s1.items.recheck == {} {
      FinishKeeps(s1);
      if s.ctl.needsUpdate {
        RescanKeeps(Finish(s1), env, pick);
      }
    }
  }

  lemma {:induction false} SetIdleKeeps(s: Dir, env: Env, pick: Name)
    requires Core(s.items, s.users) && (s.ctl.idle ==> s.ctl.scanning)
    ensures var r := SetIdle(s, env, pick);
      && Core(r.items, r.users) && |r.users| == |s.users|
      && Busy(r) && r.ctl.timeout == s.ctl.timeout
      && (r.ctl.needsUpdate ==> s.ctl.needsUpdate)
      && (r.ctl.needsUpdate && !r.ctl.scanning ==> s.items.recheck == {} || s.users == [])
    decreases if s.ctl.needsUpdate then 4 else 1
  {
    if s.items.recheck != {} && s.users != [] {
      SetScanningKeeps(s, true);
      var s1 := SetScanning(s, true);
      if !s1.ctl.idle {
        RecheckKeeps(s1.(ctl := s1.ctl.(idle := true)), pick, env, pick);
      }
    } else {
      SetScanningKeeps(s, false);
    }
  }

  // ----- the entry points

  lemma GreetAgrees(s: Dir, id: nat, h: bool)
    requires Core(s.items, s.users)
    ensures Core(s.items, [OnAdd(NewUser(id, h), s.items.known.Keys, {})] + s.users)
  {
  }

  lemma GreetKeeps(s: Dir, id: nat, h: bool, env: Env, pick: Name)
    requires Inv(s)
    ensures var r := Greet(s, id, h, env, pick);
      && Core(r.items, r.users) && |r.users| == |s.users| + 1
      && (r.ctl.idle ==> r.ctl.scanning) && r.ctl.timeout == s.ctl.timeout
      && (r.ctl.needsUpdate ==> s.ctl.scanning && r.ctl.scanning && r.items.recheck != {})
  {
    GreetAgrees(s, id, h);
    var u := OnAdd(NewUser(id, h), s.items.known.Keys, {});
    var s1 := s.(users := [u] + s.users);
    if s.ctl.needsUpdate && !s.ctl.scanning {
      RescanKeeps(s1, env, pick);
    } else {
      QueueKeeps(s1.items, s1.users, u.view);
      assert s.items.recheck <= QueueItems(s1.items, u.view).recheck;
    }
  }

  lemma AttachKeeps(s: Dir, id: nat, h: bool, env: Env, pick: Name)
    requires Inv(s)
    ensures Inv(Attach(s, id, h, env, pick))
  {
    GreetKeeps(s, id, h, env, pick);
    var s1 := Greet(s, id, h, env, pick);
    SetIdleKeeps(s1, env, pick);
    var s2 := SetIdle(s1, env, pick);
    var r := Attach(s, id, h, env, pick);
    forall i | 0 <= i < |r.users|
      ensures Agrees(r.items, r.users[i])
    {
      assert Agrees(s2.items, s2.users[i]);
    }
  }

  lemma {:induction false} WithoutFirstFrom(us: seq<User>, id: nat, i: int)
    requires 0 <= i < |WithoutFirst(us, id)|
    ensures WithoutFirst(us, id)[i] in us
  {
    if us[0].id != id && i > 0 {
      WithoutFirstFrom(us[1..], id, i - 1);
    }
  }

  /** Of the windows with the id the first one goes, and the others stay in order. */
  lemma {:induction false} RemoveAt(us: seq<User>, id: nat, i: nat)
    requires i < |us| && us[i].id == id && forall j :: 0 <= j < i ==> us[j].id != id
    ensures WithoutFirst(us, id) == us[..i] + us[i + 1..]
  {
    if i > 0 {
      assert forall j :: 0 <= j < i - 1 ==> us[1..][j] == us[j + 1];
      RemoveAt(us[1..], id, i - 1);
      assert us[..i] == [us[0]] + us[1..][..i - 1];
      assert us[i + 1..] == us[1..][i..];
    }
  }

  lemma DetachAgrees(s: Dir, id: nat)
    requires Core(s.items, s.users)
    ensures Core(s.items, WithoutFirst(s.users, id))
  {
    forall i | 0 <= i < |WithoutFirst(s.users, id)|
      ensures Agrees(s.items, WithoutFirst(s.users, id)[i])
    {
      WithoutFirstFrom(s.users, id, i);
    }
  }

  lemma DetachKeeps(s: Dir, id: nat, env: Env, pick: Name)
    requires Inv(s)
    ensures Inv(Detach(s, id, env, pick))
  {
    if Attached(s.users, id) {
      DetachAgrees(s, id);
      SetIdleKeeps(s.(users := WithoutFirst(s.users, id)), env, pick);
    }
  }

  /** The timeout stays installed exactly while a scan runs. */
  lemma TimeoutKeeps(s: Dir, env: Env, pick: Name)
    requires Inv(s) && s.ctl.timeout
    ensures Inv(RescanTimeout(s, env, pick))
    ensures RescanTimeout(s, env, pick).ctl.timeout <==> RescanTimeout(s, env, pick).ctl.scanning
  {
    if RescansNow(s) { RescanKeeps(s, env, pick); }
  }

  /** Every enabled event keeps the invariant, whatever the file system answers. */
  lemma StepKeeps(s: Dir, x: Input)
    requires Inv(s) && Enabled(s, x.event)
    ensures Inv(Step(s, x))
  {
    match x.event
    case EAttach(id, h) => AttachKeeps(s, id, h, x.env, x.pick);
    case EDetach(id) => DetachKeeps(s, id, x.env, x.pick);
    case EIdle(leaf) => RecheckKeeps(s, leaf, x.env, x.pick);
    case EUpdate => if !s.ctl.scanning { RescanKeeps(s, x.env, x.pick); }
    case EMonitor =>
    case ETimeout => if !s.ctl.scanning && s.ctl.needsUpdate { RescanKeeps(s, x.env, x.pick); }
    case ECheck(leaf) => InsertKeeps(s.items, s.users, leaf, x.env);
    case EUpdateItem(leaf) =>
      InsertKeeps(s.items, s.users, leaf, x.env);
      MergeKeeps(Insert(s, leaf, x.env));
    case ENotify => MergeKeeps(s);
  }

  /** Watcher agreement and the scan machine, over every run from a state that satisfies
      `Inv`, such as a new directory: all of `Inv` holds in every rest state. */
  lemma {:induction false} RunKeeps(s: Dir, xs: seq<Input>)
    requires Inv(s) && IsRun(s, xs)
    ensures Inv(RunFrom(s, xs))
    decreases |xs|
  {
    if xs != [] {
      StepKeeps(s, xs[0]);
      RunKeeps(Step(s, xs[0]), xs[1..]);
    }
  }

  lemma {:induction false} RunsFromNew(xs: seq<Input>)
    requires IsRun(NEW_DIR, xs)
    ensures Inv(RunFrom(NEW_DIR, xs))
  {
    RunKeeps(NEW_DIR, xs);
  }
}
