/** The Directory object of dir.c, with the fields its functions update in place.  Every
    method is proved to do to the abstract state what the function of the same name in
    DirSpec does, so what DirInvariants and DirTheorems prove holds of this object. */
module Directories {
  import opened Basics
  import opened DirSpec
  import opened DirInvariants

  /** The hash table that inserting the items in order makes; a later item replaces an
      earlier one of the same name. */
  function ToMap(s: seq<(Name, bool)>): map<Name, bool> {
    if s == [] then map[] else ToMap(s[..|s| - 1])[s[|s| - 1].0 := s[|s| - 1].1]
  }

  /** The names of which there is more than one item. */
  function Repeated(s: seq<(Name, bool)>): set<Name> {
    if s == [] then {}
    else
      var init, n := s[..|s| - 1], s[|s| - 1].0;
      if n in ToMap(init) then Repeated(init) + {n} else Repeated(init)
  }

  class Directory {
    var users: seq<User>
    var known: map<Name, bool>       // known_items: name to NEED_RESCAN_QUEUE flag
    var newItems: seq<(Name, bool)>
    var upItems: seq<Name>
    var goneItems: seq<Name>
    var recheckList: seq<Name>
    var scanning: bool
    var needsUpdate: bool
    var idleCallback: bool
    var rescanTimeout: bool
    var notifyActive: bool
    var haveScanned: bool
    var error: bool
    ghost var stated: set<Name>      // history: restatted since the last listing

    ghost function ItemsNow(): Items
      reads this
    {
      Items(known, ToMap(newItems), Members(upItems), Members(goneItems), Members(recheckList), Repeated(newItems),
            stated)
    }

    ghost function ControlNow(): Control
      reads this
    {
      Control(scanning, needsUpdate, idleCallback, rescanTimeout, notifyActive, haveScanned, error)
    }

    ghost function Abs(): Dir
      reads this
    {
      Dir(ItemsNow(), users, ControlNow())
    }

    /** The recheck list never holds a name twice, and the item collections and the views of
        the watchers are in order. */
    ghost predicate Valid()
      reads this
    {
      NoDups(recheckList) && Core(ItemsNow(), users)
    }

    /** directory_init */
    constructor ()
      ensures Valid() && Abs() == NEW_DIR && Inv(Abs())
    {
      users, known, newItems, upItems, goneItems, recheckList := [], map[], [], [], [], [];
      scanning, needsUpdate, idleCallback, rescanTimeout := false, true, false, false;
      notifyActive, haveScanned, error, stated := false, false, false, {};
    }

    /** dir_merge_new */
    method MergeNew()
      requires Valid()
      modifies this
      ensures Valid() && Abs() == Merge(old(Abs()))
      ensures recheckList == old(recheckList) && newItems == []
    {
      hide Greet, OnBatch, NoDups;
      MergeKeeps(Abs());
      var us := DeliverBatch(users, newItems, goneItems);
      var table := AddToTable(known, newItems);
      users, known := us, table;
      goneItems, newItems, upItems := [], [], [];
    }

    /** insert_item; the result says whether the item exists. */
    method InsertItem(leaf: Name, env: Env) returns (found: bool)
      requires Valid()
      modifies this
      ensures Valid() && Abs() == Insert(old(Abs()), leaf, env)
      ensures recheckList == old(recheckList)
    {
      hide Core, Members, ToMap, Repeated, NoDups, Ignored;
      ghost var it := ItemsNow();
      InsertKeeps(it, users, leaf, env);
      if Ignored(leaf) { return false; }
      if leaf !in known {
        if leaf !in env.present { return false; }
        stated := stated + {leaf};
        ItemNew(leaf);
        ItemChanged(leaf);
      } else if leaf !in env.present {
        stated := stated - {leaf};
        ItemGone(leaf);
        return false;
      } else {
        known, stated := known[leaf := false], stated + {leaf};
        if leaf !in env.changed { return true; }
        ItemChanged(leaf);
      }
      return true;
    }

    /** An unknown item joins new_items. */
    method ItemNew(leaf: Name)
      modifies `newItems
      ensures ToMap(newItems) == ToMap(old(newItems))[leaf := false]
      ensures Repeated(newItems)
           == if leaf in ToMap(old(newItems)) then Repeated(old(newItems)) + {leaf} else Repeated(old(newItems))
    {
      hide ToMap, Repeated;
      AppendItem(newItems, leaf, false);
      newItems := newItems + [(leaf, false)];
    }

    /** The deleted item leaves known_items for gone_items (and delayed_notify is called). */
    method ItemGone(leaf: Name)
      modifies `known, `goneItems, `notifyActive
      ensures ItemsNow() == old(ItemsNow().(known := known - {leaf}, gone := Members(goneItems) + {leaf}))
      ensures notifyActive
    {
      AppendName(goneItems, leaf);
      known := known - {leaf};
      goneItems := goneItems + [leaf];
      notifyActive := true;
    }

    /** The item joins up_items (and delayed_notify is called). */
    method ItemChanged(leaf: Name)
      modifies `upItems, `notifyActive
      ensures ItemsNow() == old(ItemsNow().(up := Members(upItems) + {leaf}))
      ensures notifyActive
    {
      AppendName(upItems, leaf);
      upItems := upItems + [leaf];
      notifyActive := true;
    }

    /** dir_set_scanning */
    method DirSetScanning(now: bool)
      requires Valid()
      modifies this
      ensures Valid() && Abs() == SetScanning(old(Abs()), now)
      ensures recheckList == old(recheckList)
    {
      ghost var s := Abs();
      SetScanningKeeps(s, now);
      if now == scanning { return; }
      scanning := now;
      var us: seq<User> := [];
      for i := 0 to |users|
        invariant |us| == i
        invariant forall j :: 0 <= j < i ==>
          us[j] == if now then OnStartScan(users[j]) else OnEndScan(users[j], known.Keys)
      {
        us := us + [if now then OnStartScan(users[i]) else OnEndScan(users[i], known.Keys)];
      }
      assert us == SetScanning(s, now).users;
      users := us;
    }

    /** remove_missing: mark every item, unmark what is in `keep`, drop what is left. */
    method DirRemoveMissing(keep: seq<Name>)
      requires Valid()
      modifies `users, `known
      ensures Valid() && Abs() == RemoveMissing(old(Abs()), Members(keep))
      ensures recheckList == old(recheckList)
    {
      ghost var s := Abs();
      RemoveMissingKeeps(s, Members(keep));
      var mayDelete := known.Keys;
      for i := 0 to |keep|
        invariant mayDelete == known.Keys - Members(keep[..i])
      {
        assert keep[..i + 1] == keep[..i] + [keep[i]];
        mayDelete := mayDelete - {keep[i]};
      }
      assert keep[..|keep|] == keep;
      var us: seq<User> := [];
      for i := 0 to |users|
        invariant |us| == i
        invariant forall j :: 0 <= j < i ==> us[j] == OnRemove(users[j], mayDelete)
      {
        us := us + [OnRemove(users[i], mayDelete)];
      }
      assert us == RemoveMissing(s, Members(keep)).users;
      users := us;
      known := known - mayDelete;
    }

    /** dir_queue_recheck on a flagged item */
    method DirQueueRecheck(n: Name)
      requires Valid() && n in known && known[n]
      modifies this
      ensures Valid() && Abs() == old(Abs()).(items := QueueItems(old(ItemsNow()), {n}))
      ensures recheckList == [n] + old(recheckList)
    {
      hide Repeated, ToMap;
      QueueKeeps(ItemsNow(), users, {n});
      ghost var it := ItemsNow();
      assert n !in recheckList;
      recheckList := [n] + recheckList;
      known := known[n := false];
      assert (set m | m in it.known && it.known[m] && m in {n}) == {n};
    }

    /** queue_interesting for one window: walk the view in any order. */
    method QueueInteresting(view: set<Name>)
      requires Valid()
      modifies this
      ensures Valid() && Abs() == old(Abs()).(items := QueueItems(old(ItemsNow()), view))
    {
      var todo := view;
      ghost var it := ItemsNow();
      QueueNothing(it);
      while todo != {}
        invariant Valid() && todo <= view
        invariant Abs() == old(Abs()).(items := QueueItems(it, view - todo))
        decreases todo
      {
        var n :| n in todo;
        QueueTwice(it, view - todo, n);
        assert view - (todo - {n}) == view - todo + {n};
        if n in known && known[n] { DirQueueRecheck(n); }
        todo := todo - {n};
      }
      assert view - {} == view;
    }

    /** The DIR_QUEUE_INTERESTING round of dir_rescan. */
    method QueueAll()
      requires Valid()
      modifies this
      ensures Valid()
      ensures Abs() == old(Abs()).(items := QueueItems(old(ItemsNow()), Watched(old(users))))
    {
      ghost var it := ItemsNow();
      QueueNothing(it);
      assert Watched(users[..0]) == {};
      for i := 0 to |users|
        invariant Valid() && users == old(users)
        invariant Abs() == old(Abs()).(items := QueueItems(it, Watched(users[..i])))
      {
        QueueBoth(it, Watched(users[..i]), users[i].view);
        WatchedNext(users, i);
        QueueInteresting(users[i].view);
      }
      assert users[..|users|] == users;
    }

    /** The loop of dir_rescan over the names: flag what is known, add a blank item for what
        is not. */
    method FlagOrAdd(names: seq<Name>)
      requires newItems == [] && NoDups(names) && known.Keys <= Members(names)
      modifies `known, `newItems
      ensures known == map n | n in old(known) :: true
      ensures ToMap(newItems) == map n | n in Members(names) && n !in old(known) :: true
      ensures Repeated(newItems) == {}
    {
      hide ToMap, Repeated, Flagged, Blank, NoDups;
      ghost var was := known;
      NothingListed(known);
      for i := 0 to |names|
        invariant known == Flagged(was, Members(names[..i]))
        invariant ToMap(newItems) == Blank(Members(names[..i]) - was.Keys) && Repeated(newItems) == {}
      {
        NextListed(was, newItems, names, i);
        if names[i] in known {
          known := known[names[i] := true];
        } else {
          newItems := newItems + [(names[i], true)];
        }
      }
      assert names[..|names|] == names;
      AllListed(was, Members(names));
    }

    /** Drop what is not listed, empty the recheck list, and flag or add what is listed. */
    method UpdateItems(names: seq<Name>)
      requires Valid() && newItems == [] && NoDups(names)
      modifies this
      ensures ItemsNow() == ListItems(old(ItemsNow()), Members(names))
      ensures users == RemoveMissing(old(Abs()), Members(names)).users
      ensures ControlNow() == old(ControlNow()) && recheckList == []
    {
      hide Core, NoDups, Agrees, AllAgree, ListItems, RemoveMissing;
      ghost var s := Abs();
      DirRemoveMissing(names);
      DroppedIs(s, Members(names));
      recheckList, stated := [], {};
      FlagOrAdd(names);
      ListedIs(s.items, known, ToMap(newItems), Members(names));
      assert Members<Name>([]) == {};
    }

    /** The part of dir_rescan that has a listing, up to its second dir_merge_new. */
    method ReadListing(listed: set<Name>)
      requires Valid()
      modifies this
      ensures Valid() && Abs() == Relist(old(Abs()), listed)
    {
      ghost var s := Abs();
      DirSetScanning(true);
      MergeNew();
      ghost var s1 := Abs();
      var names := ReadNames(listed);
      UpdateItems(names);
      RelistMiddle(s, listed, s1, users, ItemsNow());
      MergeNew();
    }

    /** dir_rescan; `pick` is the name it rechecks first. */
    method DirRescan(env: Env) returns (ghost pick: Name)
      requires Valid()
      modifies this
      ensures Valid() && Abs() == Rescan(old(Abs()), env, pick)
      decreases 2
    {
      hide SetIdle, QueueItems, Repeated, NoDups, ListItems, EachUser;
      pick := "";
      needsUpdate := false;
      error := false;
      match env.listing
      case StatFailed(closeWindow) =>
        if !closeWindow {
          error := true;
          DirRemoveMissing([]);
          assert Members<Name>([]) == {};
        }
      case OpenFailed =>
        error := true;
      case Listed(names) =>
        ReadListing(names);
        QueueAll();
        pick := SetIdleCallback(env);
        MergeNew();
    }

    /** The part of recheck_callback that deals with the first name of the list. */
    method RecheckFirst(env: Env)
      requires Valid() && recheckList != []
      modifies this
      ensures Valid() && Abs() == Pop(old(Abs()), old(recheckList)[0], env)
      ensures recheckList == old(recheckList)[1..]
    {
      hide Insert;
      PopKeeps(Abs(), recheckList[0], env);
      PoppedCore(ItemsNow(), users, recheckList);
      var leaf := recheckList[0];
      recheckList := recheckList[1..];
      var found := InsertItem(leaf, env);
    }

    /** The end of a scan: everything that is left when the list is empty. */
    method FinishScan()
      requires Valid()
      modifies this
      ensures Valid() && Abs() == Finish(old(Abs())) && recheckList == old(recheckList)
    {
      hide Merge, SetScanning, Core, Tidy;
      MergeNew();
      haveScanned := true;
      DirSetScanning(false);
      idleCallback := false;
      SetScanningControl(Merge(old(Abs())), true);
    }

    /** recheck_callback */
    method RecheckCallback(env: Env) returns (ghost pick: Name)
      requires Valid()
      modifies this
      ensures Valid()
      ensures if old(recheckList) == [] then Abs() == old(Abs())
              else Abs() == Recheck(old(Abs()), old(recheckList)[0], env, pick)
      decreases if needsUpdate then 3 else 0
    {
      hide Pop, Finish, Core, NoDups, Rescan, Repeated, ToMap;
      pick := "";
      if recheckList == [] { return; }
      ghost var s, leaf := Abs(), recheckList[0];
      RecheckFirst(env);
      PopControl(s, leaf, env);
      assert recheckList == [] <==> ItemsNow().recheck == {} by {
        assert recheckList != [] ==> recheckList[0] in ItemsNow().recheck;
      }
      if recheckList != [] { return; }
      FinishScan();
      FinishControl(Pop(s, leaf, env));
      if needsUpdate { pick := DirRescan(env); }
    }

    /** set_idle_callback.  It starts a scan only when no rescan is requested: its callers
        rescan first, or a scan is running. */
    method SetIdleCallback(env: Env) returns (ghost pick: Name)
      requires Valid()
      requires needsUpdate ==> idleCallback || recheckList == [] || users == []
      modifies this
      ensures Valid() && Abs() == SetIdle(old(Abs()), env, pick)
      decreases if needsUpdate then 4 else 1
    {
      pick := "";
      ghost var none := recheckList == [];
      assert none <==> ItemsNow().recheck == {} by {
        assert recheckList != [] ==> recheckList[0] in ItemsNow().recheck;
      }
      if recheckList != [] && users != [] {
        DirSetScanning(true);
        if idleCallback { return; }
        idleCallback := true;
        ghost var s1 := Abs();
        pick := recheckList[0];
        ghost var unused := RecheckCallback(env);
        RecheckOnly(s1, pick, env, unused, pick);
      } else {
        DirSetScanning(false);
        idleCallback := false;
      }
    }

    /** dir_attach before its call of set_idle_callback. */
    method GreetUser(id: nat, showHidden: bool, env: Env) returns (ghost pick: Name)
      requires Valid() && Inv(Abs())
      modifies this
      ensures Valid() && Abs() == Greet(old(Abs()), id, showHidden, env, pick)
    {
      pick := "";
      GreetAgrees(Abs(), id, showHidden);
      var u := OnAdd(NewUser(id, showHidden), known.Keys, {});
      users := [u] + users;
      if needsUpdate && !scanning {
        pick := DirRescan(env);
      } else {
        QueueInteresting(u.view);
      }
    }

    // ----- what the rest of the program calls; each keeps the whole invariant

    /** dir_attach */
    method DirAttach(id: nat, showHidden: bool, env: Env) returns (ghost pick: Name)
      requires Valid() && Inv(Abs())
      modifies this
      ensures Valid() && Inv(Abs())
      ensures Abs() == Step(old(Abs()), Input(EAttach(id, showHidden), env, pick))
    {
      hide Core, Agrees, SetIdle, Rescan, Remembered, QueueItems, Members, OnAdd, OnEndScan, Insert;
      ghost var s := Abs();
      pick := GreetUser(id, showHidden, env);
      ghost var s1 := Abs();
      GreetKeeps(s, id, showHidden, env, pick);
      ghost var first := pick;
      ghost var second := SetIdleCallback(env);
      if !(RescansNow(s) && env.listing.Listed?) { pick := second; }
      AttachPick(s, id, showHidden, env, first, second);
      SetIdleKeeps(s1, env, second);
      if !scanning {
        users := users[0 := OnEndScan(users[0], known.Keys)];
      }
      AttachKeeps(s, id, showHidden, env, pick);
    }

    /** dir_detach */
    method DirDetach(id: nat, env: Env) returns (ghost pick: Name)
      requires Valid() && Inv(Abs())
      modifies this
      ensures Valid() && Inv(Abs())
      ensures Abs() == Step(old(Abs()), Input(EDetach(id), env, pick))
    {
      hide Core, AllAgree, Tidy, SetIdle, Rescan, ToMap;
      pick := "";
      ghost var s := Abs();
      for i := 0 to |users|
        invariant Abs() == s && Valid()
        invariant forall j :: 0 <= j < i ==> users[j].id != id
      {
        if users[i].id == id {
          RemoveAt(users, id, i);
          users := users[..i] + users[i + 1..];
          DetachAgrees(s, id);
          assert recheckList != [] ==> recheckList[0] in s.items.recheck;
          pick := SetIdleCallback(env);
          DetachKeeps(s, id, env, pick);
          return;
        }
      }
    }

    /** recheck_callback as the main loop runs it */
    method IdleTick(env: Env) returns (ghost leaf: Name, ghost pick: Name)
      requires Valid() && Inv(Abs()) && idleCallback
      modifies this
      ensures Valid() && Inv(Abs())
      ensures Enabled(old(Abs()), EIdle(leaf))
      ensures Abs() == Step(old(Abs()), Input(EIdle(leaf), env, pick))
    {
      assert recheckList != [] by { assert recheckList == [] ==> ItemsNow().recheck == {}; }
      leaf := recheckList[0];
      RecheckKeepsAll(Abs(), leaf, env);
      pick := RecheckCallback(env);
    }

    /** update */
    method DirUpdate(env: Env) returns (ghost pick: Name)
      requires Valid() && Inv(Abs())
      modifies this
      ensures Valid() && Inv(Abs())
      ensures Abs() == Step(old(Abs()), Input(EUpdate, env, pick))
    {
      pick := "";
      ghost var s := Abs();
      if scanning { needsUpdate := true; } else { pick := DirRescan(env); }
      StepKeeps(s, Input(EUpdate, env, pick));
    }

    /** rescan_soon */
    method DirRescanSoon(ghost env: Env)
      requires Valid() && Inv(Abs())
      modifies this
      ensures Valid() && Inv(Abs())
      ensures Abs() == Step(old(Abs()), Input(EMonitor, env, ""))
    {
      needsUpdate := true;
      if rescanTimeout { return; }
      rescanTimeout := true;
    }

    /** rescan_timeout_cb; the result says whether to call again. */
    method RescanTimeoutCallback(env: Env) returns (again: bool, ghost pick: Name)
      requires Valid() && Inv(Abs()) && rescanTimeout
      modifies this
      ensures Valid() && Inv(Abs()) && again == rescanTimeout
      ensures Abs() == Step(old(Abs()), Input(ETimeout, env, pick))
    {
      pick := "";
      ghost var s := Abs();
      if !scanning && needsUpdate { pick := DirRescan(env); }
      TimeoutKeeps(s, env, pick);
      again := scanning;
      if !scanning { rescanTimeout := false; }
    }

    /** dir_recheck, for dir_check_this */
    method DirCheckThis(leaf: Name, env: Env)
      requires Valid() && Inv(Abs())
      modifies this
      ensures Valid() && Inv(Abs())
      ensures Abs() == Step(old(Abs()), Input(ECheck(leaf), env, ""))
    {
      StepKeeps(Abs(), Input(ECheck(leaf), env, ""));
      var found := InsertItem(leaf, env);
    }

    /** dir_update_item */
    method DirUpdateItem(leaf: Name, env: Env) returns (found: bool)
      requires Valid() && Inv(Abs())
      modifies this
      ensures Valid() && Inv(Abs())
      ensures Abs() == Step(old(Abs()), Input(EUpdateItem(leaf), env, ""))
    {
      StepKeeps(Abs(), Input(EUpdateItem(leaf), env, ""));
      found := InsertItem(leaf, env);
      MergeNew();
    }

    /** notify_timeout */
    method NotifyTimeout(ghost env: Env)
      requires Valid() && Inv(Abs()) && notifyActive
      modifies this
      ensures Valid() && Inv(Abs())
      ensures Abs() == Step(old(Abs()), Input(ENotify, env, ""))
    {
      StepKeeps(Abs(), Input(ENotify, env, ""));
      MergeNew();
      notifyActive := false;
    }
  }

  /** dir_attach rechecks at most one name itself: either in its rescan or afterwards. */
  lemma AttachPick(s: Dir, id: nat, h: bool, env: Env, first: Name, second: Name)
    requires Inv(s)
    ensures var pick := if RescansNow(s) && env.listing.Listed? then first else second;
      && Greet(s, id, h, env, pick) == Greet(s, id, h, env, first)
      && SetIdle(Greet(s, id, h, env, first), env, pick) == SetIdle(Greet(s, id, h, env, first), env, second)
  {
    if RescansNow(s) && env.listing.Listed? {
      GreetAgrees(s, id, h);
      RescanKeeps(s.(users := [OnAdd(NewUser(id, h), s.items.known.Keys, {})] + s.users), env, first);
    }
  }

  lemma RecheckKeepsAll(s: Dir, leaf: Name, env: Env)
    requires Inv(s) && Enabled(s, EIdle(leaf))
    ensures forall pick :: Inv(Recheck(s, leaf, env, pick))
  {
    forall pick ensures Inv(Recheck(s, leaf, env, pick)) {
      RecheckKeeps(s, leaf, env, pick);
    }
  }

  /** The callbacks of dir_merge_new, watcher by watcher. */
  method DeliverBatch(users: seq<User>, newItems: seq<(Name, bool)>, goneItems: seq<Name>)
    returns (us: seq<User>)
    ensures us == EachUser(u => OnBatch(u, ToMap(newItems).Keys, Repeated(newItems), Members(goneItems)), users)
  {
    var added, twice, removed := ToMap(newItems).Keys, Repeated(newItems), Members(goneItems);
    us := [];
    for i := 0 to |users|
      invariant |us| == i
      invariant forall j :: 0 <= j < i ==> us[j] == OnBatch(users[j], added, twice, removed)
    {
      var u := users[i].(missed := (users[i].missed - added) + added * removed);
      if |newItems| > 0 { u := OnAdd(u, added, twice); }
      if |goneItems| > 0 { u := OnRemove(u, removed); }
      us := us + [u];
    }
  }

  /** Put the pending items into the table of known items, in order. */
  method AddToTable(known: map<Name, bool>, newItems: seq<(Name, bool)>) returns (table: map<Name, bool>)
    ensures table == known + ToMap(newItems)
  {
    table := known;
    for i := 0 to |newItems|
      invariant table == known + ToMap(newItems[..i])
    {
      assert newItems[..i + 1][..i] == newItems[..i];
      table := table[newItems[i].0 := newItems[i].1];
    }
    assert newItems[..|newItems|] == newItems;
  }

  function Flagged(known: map<Name, bool>, names: set<Name>): map<Name, bool> {
    map n | n in known :: known[n] || n in names
  }

  function Blank(names: set<Name>): map<Name, bool> {
    map n | n in names :: true
  }

  lemma NothingListed(known: map<Name, bool>)
    ensures Members<Name>([]) == {} && known == Flagged(known, {}) && ToMap([]) == Blank({} - known.Keys)
    ensures Repeated([]) == {}
  {
  }

  lemma AllListed(known: map<Name, bool>, listed: set<Name>)
    requires known.Keys <= listed
    ensures Flagged(known, listed) == map n | n in known :: true
    ensures Blank(listed - known.Keys) == map n | n in listed && n !in known :: true
  {
  }

  /** One more name of the listing. */
  lemma NextListed(known: map<Name, bool>, newItems: seq<(Name, bool)>, names: seq<Name>, i: nat)
    requires i < |names| && NoDups(names)
    requires ToMap(newItems) == Blank(Members(names[..i]) - known.Keys) && Repeated(newItems) == {}
    ensures var was, now, n := Members(names[..i]), Members(names[..i + 1]), names[i];
      if n in Flagged(known, was) then
        Flagged(known, now) == Flagged(known, was)[n := true] && Blank(now - known.Keys) == ToMap(newItems)
      else
        && Flagged(known, now) == Flagged(known, was)
        && Blank(now - known.Keys) == ToMap(newItems + [(n, true)]) && Repeated(newItems + [(n, true)]) == {}
  {
    var was, n := Members(names[..i]), names[i];
    assert names[..i + 1] == names[..i] + [n];
    AppendName(names[..i], n);
    FlagOne(known, was, n);
    AppendItem(newItems, n, true);
    assert n !in was;
  }

  lemma DroppedIs(s: Dir, listed: set<Name>)
    ensures var r := RemoveMissing(s, listed);
      && r.items == s.items.(known := map n | n in s.items.known && n in listed :: s.items.known[n])
      && r.items.known.Keys <= listed && r.ctl == s.ctl
  {
  }

  lemma ListedIs(it: Items, known: map<Name, bool>, added: map<Name, bool>, listed: set<Name>)
    requires it.added == map[] && it.twice == {}
    requires var kept := set n | n in it.known && n in listed;
      known == (map n | n in kept :: true) && added == map n | n in listed && n !in kept :: true
    ensures ListItems(it, listed) == it.(known := known, added := added, recheck := {}, twice := {}, stated := {})
  {
  }

  lemma FlagOne(known: map<Name, bool>, names: set<Name>, n: Name)
    ensures n in known ==>
      && Flagged(known, names + {n}) == Flagged(known, names)[n := true]
      && (names + {n}) - known.Keys == names - known.Keys
    ensures n !in known ==>
      && Flagged(known, names + {n}) == Flagged(known, names)
      && Blank((names + {n}) - known.Keys) == Blank(names - known.Keys)[n := true]
  {
  }

  lemma AppendName(s: seq<Name>, leaf: Name)
    ensures Members(s + [leaf]) == Members(s) + {leaf}
  {
  }

  lemma AppendItem(s: seq<(Name, bool)>, leaf: Name, flag: bool)
    ensures ToMap(s + [(leaf, flag)]) == ToMap(s)[leaf := flag]
    ensures Repeated(s + [(leaf, flag)]) == if leaf in ToMap(s) then Repeated(s) + {leaf} else Repeated(s)
  {
  }

  lemma QueueNothing(it: Items)
    ensures QueueItems(it, {}) == it
  {
  }

  /** Queueing the items of a view one at a time is queueing them together. */
  lemma QueueTwice(it: Items, a: set<Name>, n: Name)
    ensures QueueItems(QueueItems(it, a), {n}) == QueueItems(it, a + {n})
    ensures var r := QueueItems(it, a); !(n in r.known && r.known[n]) ==> QueueItems(it, a + {n}) == r
  {
  }

  /** Queueing for two windows in turn. */
  lemma QueueBoth(it: Items, a: set<Name>, b: set<Name>)
    ensures QueueItems(QueueItems(it, a), b) == QueueItems(it, a + b)
  {
  }

  /** The readdir loop: all names but "." and "..", in any order. */
  method ReadNames(listed: set<Name>) returns (names: seq<Name>)
    ensures NoDups(names) && Members(names) == listed - {".", ".."}
  {
    names := [];
    var todo := listed;
    while todo != {}
      invariant NoDups(names) && todo <= listed
      invariant Members(names) == (listed - todo) - {".", ".."}
      decreases todo
    {
      var entry :| entry in todo;
      todo := todo - {entry};
      if entry == "." || entry == ".." { continue; }
      AppendName(names, entry);
      assert entry !in Members(names);
      names := names + [entry];
    }
  }

  /** How the steps of ReadListing make up Relist. */
  lemma RelistMiddle(s: Dir, names: set<Name>, s1: Dir, us: seq<User>, it: Items)
    requires s1 == Merge(SetScanning(s, true)) && Core(s.items, s.users)
    requires us == RemoveMissing(s1, names - {".", ".."}).users
    requires it == ListItems(s1.items, names - {".", ".."})
    ensures Core(it, us) && Relist(s, names) == Merge(Dir(it, us, s1.ctl))
  {
    var listed := names - {".", ".."};
    SetScanningKeeps(s, true);
    MergeKeeps(SetScanning(s, true));
    RemoveMissingKeeps(s1, listed);
    forall i | 0 <= i < |us|
      ensures Agrees(it, us[i])
    {
      assert Agrees(RemoveMissing(s1, listed).items, us[i]);
    }
  }

  lemma PopList(list: seq<Name>)
    requires NoDups(list) && list != []
    ensures NoDups(list[1..]) && Members(list[1..]) == Members(list) - {list[0]}
  {
  }

  lemma PoppedCore(it: Items, us: seq<User>, list: seq<Name>)
    requires NoDups(list) && list != [] && it.recheck == Members(list) && Core(it, us)
    ensures NoDups(list[1..]) && Members(list[1..]) == Members(list) - {list[0]}
    ensures Core(it.(recheck := Members(list[1..])), us)
  {
    PopList(list);
    forall i | 0 <= i < |us| ensures Agrees(it.(recheck := Members(list[1..])), us[i]) {
      assert Agrees(it, us[i]);
    }
  }

  /** What is not touched at the end of a scan. */
  lemma SetScanningControl(s: Dir, scanned: bool)
    ensures SetScanning(s.(ctl := s.ctl.(haveScanned := scanned)), false)
      == SetScanning(s, false).(ctl := SetScanning(s, false).ctl.(haveScanned := scanned))
  {
  }

  lemma PopControl(s: Dir, leaf: Name, env: Env)
    ensures Pop(s, leaf, env).ctl.needsUpdate == s.ctl.needsUpdate
  {
  }

  lemma FinishControl(s: Dir)
    ensures Finish(s).ctl.needsUpdate == s.ctl.needsUpdate
  {
  }

  /** A recheck that is not followed by a rescan makes only one choice. */
  lemma RecheckOnly(s: Dir, leaf: Name, env: Env, pick: Name, pick': Name)
    requires !s.ctl.needsUpdate
    ensures Recheck(s, leaf, env, pick) == Recheck(s, leaf, env, pick')
  {
  }
}
