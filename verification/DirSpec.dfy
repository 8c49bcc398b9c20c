/** The directory cache of dir.c as a state machine on values: one function for each
    entry point, applied to a state that holds what the cache knows, what it still has
    to tell its watchers, and what each watcher (a filer window) displays.

    Items are identified by leaf name.  A hash table or list that the program walks in an
    unspecified order is a set here; where the order matters (which queued name is
    rechecked first) the name is an argument, so every statement covers every order. */
module DirSpec {

  type Name = string

  /** One attached filer window.  `busy` is its scanning indicator; `view` are the names it
      displays and `doubled` those that it displays more than once.  `missed` is history: the
      names a merge has delivered as added and, in the same batch, removed again, since the last
      DIR_END_SCAN. */
  datatype User = User(
    id: nat, showHidden: bool, busy: bool, view: set<Name>, missed: set<Name>, doubled: set<Name>)
  {
    /** filer_match_filter: a leading dot hides the item. */
    predicate Shows(n: Name) {
      showHidden || |n| == 0 || n[0] != '.'
    }

    function Visible(names: set<Name>): set<Name> {
      set n | n in names && Shows(n)
    }
  }

  /** The item collections.  `known` and `added` map a name to its NEED_RESCAN_QUEUE flag;
      `added`, `up` and `gone` are the pending arrays new_items, up_items and gone_items, and
      `twice` are the names of which new_items has more than one item.  `stated` is history: the
      names that have been restatted, and were there, since the directory was last listed; the
      item of any other name is a blank place-holder or out of date. */
  datatype Items = Items(
    known: map<Name, bool>,
    added: map<Name, bool>,
    up: set<Name>,
    gone: set<Name>,
    recheck: set<Name>,
    twice: set<Name>,
    stated: set<Name>)

  datatype Control = Control(
    scanning: bool,
    needsUpdate: bool,
    idle: bool,          // recheck_callback is installed
    timeout: bool,       // rescan_timeout_cb is installed
    notifyActive: bool,  // notify_timeout is installed
    haveScanned: bool,
    error: bool)

  datatype Dir = Dir(items: Items, users: seq<User>, ctl: Control)

  /** What one reading of the directory gives. */
  datatype Listing =
    | StatFailed(closeWindow: bool)
    | OpenFailed
    | Listed(names: set<Name>)

  /** The file system as one entry point sees it: the listing, the names an lstat finds
      (any answer but ENOENT), and those whose details differ from what is cached. */
  datatype Env = Env(listing: Listing, present: set<Name>, changed: set<Name>)

  const NO_ITEMS := Items(map[], map[], {}, {}, {}, {}, {})
  const NEW_DIR := Dir(NO_ITEMS, [], Control(false, true, false, false, false, false, false))

  function EachUser(f: User -> User, us: seq<User>): (r: seq<User>)
    ensures |r| == |us|
    ensures forall i :: 0 <= i < |us| ==> r[i] == f(us[i])
  {
    seq(|us|, i requires 0 <= i < |us| => f(us[i]))
  }

  // ----- what a filer window does with each event (update_display in filer.c)

  /** A window that is being opened starts by assuming that a scan is running. */
  function NewUser(id: nat, showHidden: bool): User {
    User(id, showHidden, true, {}, {}, {})
  }

  /** DIR_ADD appends every item that passes the filter, whether its name is there or not. */
  function OnAdd(u: User, names: set<Name>, twice: set<Name>): User {
    u.(view := u.view + u.Visible(names),
       doubled := u.doubled + u.Visible(twice) + u.view * u.Visible(names))
  }

  /** DIR_REMOVE removes everything that has the name. */
  function OnRemove(u: User, names: set<Name>): User {
    u.(view := u.view - names, doubled := u.doubled - names)
  }

  function OnStartScan(u: User): User {
    u.(busy := true)
  }

  /** sync_complete_directory_view: the view becomes the filtered contents. */
  function OnEndScan(u: User, known: set<Name>): User {
    u.(busy := false, view := u.Visible(known), missed := {}, doubled := {})
  }

  /** One batch, in the order of delivery: DIR_ADD, then DIR_REMOVE by leaf name. */
  function OnBatch(u: User, added: set<Name>, twice: set<Name>, removed: set<Name>): User {
    OnRemove(OnAdd(u, added, twice), removed).(missed := (u.missed - added) + added * removed)
  }

  // ----- the item collections

  /** insert_item gives up on these leaf names (it compares with a newline where dir_rescan
      compares with the end of the string). */
  predicate Ignored(leaf: Name) {
    |leaf| >= 2 && leaf[0] == '.' &&
    (leaf[1] == '\n' || (|leaf| >= 3 && leaf[1] == '.' && leaf[2] == '\n'))
  }

  function MergeItems(it: Items): Items {
    it.(known := it.known + it.added, added := map[], twice := {}, up := {}, gone := {})
  }

  /** insert_item: a known item that has vanished moves to `gone`, a known item that is
      there loses its flag, an unknown one that is there becomes pending, even if an item of
      its name is pending already. */
  function InsertItem(it: Items, leaf: Name, env: Env): Items {
    if leaf in it.known then
      if leaf !in env.present then
        it.(known := it.known - {leaf}, gone := it.gone + {leaf}, stated := it.stated - {leaf})
      else
        it.(known := it.known[leaf := false], up := if leaf in env.changed then it.up + {leaf} else it.up,
            stated := it.stated + {leaf})
    else if leaf in env.present then
      it.(added := it.added[leaf := false], up := it.up + {leaf},
          twice := if leaf in it.added then it.twice + {leaf} else it.twice, stated := it.stated + {leaf})
    else it
  }

  /** Whether insert_item asks for a delayed notification. */
  predicate Notifies(it: Items, leaf: Name, env: Env) {
    if leaf in it.known then leaf !in env.present || leaf in env.changed else leaf in env.present
  }

  /** queue_interesting in one window: every displayed item that is flagged moves to the
      recheck list and loses its flag. */
  function QueueItems(it: Items, view: set<Name>): Items {
    var q := set n | n in it.known && it.known[n] && n in view;
    it.(known := map n | n in it.known :: it.known[n] && n !in q, recheck := it.recheck + q)
  }

  /** Bring the known items into line with a listing: drop what is not listed, flag what is
      known, and make a flagged blank item for the rest. */
  function ListItems(it: Items, listed: set<Name>): Items {
    it.(known := map n | n in it.known && n in listed :: true,
        added := it.added + map n | n in listed && n !in it.known :: true,
        twice := it.twice + it.added.Keys * (listed - it.known.Keys),
        recheck := {}, stated := {})
  }

  /** Everything some window displays. */
  function Watched(us: seq<User>): set<Name> {
    set i, n | 0 <= i < |us| && n in us[i].view :: n
  }

  lemma WatchedNext(us: seq<User>, i: nat)
    requires i < |us|
    ensures Watched(us[..i + 1]) == Watched(us[..i]) + us[i].view
  {
    assert forall n :: n in us[i].view ==> us[..i + 1][i] == us[i] && n in Watched(us[..i + 1]);
    assert forall j :: 0 <= j < i ==> us[..i + 1][j] == us[..i][j];
  }

  // ----- the cache

  function Merge(s: Dir): Dir {
    s.(users := EachUser(u => OnBatch(u, s.items.added.Keys, s.items.twice, s.items.gone), s.users),
       items := MergeItems(s.items))
  }

  function Insert(s: Dir, leaf: Name, env: Env): Dir {
    if Ignored(leaf) then s
    else s.(items := InsertItem(s.items, leaf, env),
            ctl := s.ctl.(notifyActive := s.ctl.notifyActive || Notifies(s.items, leaf, env)))
  }

  function SetScanning(s: Dir, scanning: bool): Dir {
    s.(ctl := s.ctl.(scanning := scanning),
       users := if scanning == s.ctl.scanning then s.users
                else if scanning then EachUser(OnStartScan, s.users)
                else EachUser(u => OnEndScan(u, s.items.known.Keys), s.users))
  }

  function RemoveMissing(s: Dir, keep: set<Name>): Dir {
    var deleted := s.items.known.Keys - keep;
    s.(items := s.items.(known := s.items.known - deleted),
       users := EachUser(u => OnRemove(u, deleted), s.users))
  }

  /** dir_rescan up to and including its second dir_merge_new. */
  function Relist(s: Dir, names: set<Name>): Dir {
    var listed := names - {".", ".."};
    var s1 := Merge(SetScanning(s, true));
    Merge(RemoveMissing(s1, listed).(items := ListItems(s1.items, listed)))
  }

  /** dir_rescan.  `pick` is the queued name that the first recheck takes. */
  function Rescan(s: Dir, env: Env, pick: Name): Dir
    decreases 2
  {
    var s0 := s.(ctl := s.ctl.(needsUpdate := false, error := !env.listing.Listed?));
    match env.listing
    case StatFailed(true) => s0.(ctl := s0.ctl.(error := false))
    case StatFailed(false) => RemoveMissing(s0, {})
    case OpenFailed => s0
    case Listed(names) =>
      var s1 := Relist(s0, names);
      Merge(SetIdle(s1.(items := QueueItems(s1.items, Watched(s1.users))), env, pick))
  }

  /** The part of recheck_callback before it looks at what is left to do. */
  function Pop(s: Dir, leaf: Name, env: Env): Dir {
    Insert(s.(items := s.items.(recheck := s.items.recheck - {leaf})), leaf, env)
  }

  /** The end of a scan: merge, send DIR_END_SCAN, remove the idle callback. */
  function Finish(s: Dir): Dir {
    var s1 := SetScanning(Merge(s), false);
    s1.(ctl := s1.ctl.(haveScanned := true, idle := false))
  }

  /** recheck_callback on the queued name `leaf`. */
  function Recheck(s: Dir, leaf: Name, env: Env, pick: Name): Dir
    decreases if s.ctl.needsUpdate then 3 else 0
  {
    var s1 := Pop(s, leaf, env);
    if s1.items.recheck != {} then s1
    else if s.ctl.needsUpdate then Rescan(Finish(s1), env, pick)
    else Finish(s1)
  }

  function SetIdle(s: Dir, env: Env, pick: Name): Dir
    decreases if s.ctl.needsUpdate then 4 else 1
  {
    if s.items.recheck != {} && s.users != [] then
      var s1 := SetScanning(s, true);
      if s1.ctl.idle then s1 else Recheck(s1.(ctl := s1.ctl.(idle := true)), pick, env, pick)
    else
      var s1 := SetScanning(s, false);
      s1.(ctl := s1.ctl.(idle := false))
  }

  /** A rescan is wanted and no scan is running. */
  predicate RescansNow(s: Dir) {
    s.ctl.needsUpdate && !s.ctl.scanning
  }

  /** dir_attach before its call of set_idle_callback: the new user gets all known items and
      either triggers the rescan that was asked for or says which items interest it. */
  function Greet(s: Dir, id: nat, showHidden: bool, env: Env, pick: Name): Dir {
    var u := OnAdd(NewUser(id, showHidden), s.items.known.Keys, {});
    var s1 := s.(users := [u] + s.users);
    if RescansNow(s) then Rescan(s1, env, pick)
    else s1.(items := QueueItems(s1.items, u.view))
  }

  /** dir_attach: when no scan is running the new user alone is sent DIR_END_SCAN. */
  function Attach(s: Dir, id: nat, showHidden: bool, env: Env, pick: Name): Dir {
    var r := SetIdle(Greet(s, id, showHidden, env, pick), env, pick);
    if r.ctl.scanning || r.users == [] then r
    else r.(users := r.users[0 := OnEndScan(r.users[0], r.items.known.Keys)])
  }

  function WithoutFirst(us: seq<User>, id: nat): seq<User> {
    if us == [] then []
    else if us[0].id == id then us[1..]
    else [us[0]] + WithoutFirst(us[1..], id)
  }

  predicate Attached(us: seq<User>, id: nat) {
    exists i :: 0 <= i < |us| && us[i].id == id
  }

  /** dir_detach: an id that is not attached is only warned about. */
  function Detach(s: Dir, id: nat, env: Env, pick: Name): Dir {
    if !Attached(s.users, id) then s
    else SetIdle(s.(users := WithoutFirst(s.users, id)), env, pick)
  }

  function Update(s: Dir, env: Env, pick: Name): Dir {
    if s.ctl.scanning then s.(ctl := s.ctl.(needsUpdate := true)) else Rescan(s, env, pick)
  }

  function RescanSoon(s: Dir): Dir {
    s.(ctl := s.ctl.(needsUpdate := true, timeout := true))
  }

  function RescanTimeout(s: Dir, env: Env, pick: Name): Dir {
    var s1 := if RescansNow(s) then Rescan(s, env, pick) else s;
    if s1.ctl.scanning then s1 else s1.(ctl := s1.ctl.(timeout := false))
  }

  function Notify(s: Dir): Dir {
    var s1 := Merge(s);
    s1.(ctl := s1.ctl.(notifyActive := false))
  }

  // ----- runs

  datatype Event =
    | EAttach(id: nat, showHidden: bool)
    | EDetach(id: nat)
    | EIdle(leaf: Name)        // the main loop calls recheck_callback
    | EUpdate                  // dir_update, refresh_dirs
    | EMonitor                 // the file monitor reports a change
    | ETimeout                 // rescan_timeout_cb
    | ECheck(leaf: Name)       // dir_check_this
    | EUpdateItem(leaf: Name)  // dir_update_item
    | ENotify                  // notify_timeout

  /** An event together with what the file system answers while it is handled. */
  datatype Input = Input(event: Event, env: Env, pick: Name)

  /** The main loop runs a callback only while it is installed, and recheck_callback takes
      its name from the list. */
  predicate Enabled(s: Dir, e: Event) {
    match e
    case EIdle(leaf) => s.ctl.idle && leaf in s.items.recheck
    case ETimeout => s.ctl.timeout
    case ENotify => s.ctl.notifyActive
    case _ => true
  }

  function Step(s: Dir, x: Input): Dir {
    match x.event
    case EAttach(id, h) => Attach(s, id, h, x.env, x.pick)
    case EDetach(id) => Detach(s, id, x.env, x.pick)
    case EIdle(leaf) => Recheck(s, leaf, x.env, x.pick)
    case EUpdate => Update(s, x.env, x.pick)
    case EMonitor => RescanSoon(s)
    case ETimeout => RescanTimeout(s, x.env, x.pick)
    case ECheck(leaf) => Insert(s, leaf, x.env)
    case EUpdateItem(leaf) => Merge(Insert(s, leaf, x.env))
    case ENotify => Notify(s)
  }

  /** A run: every event is enabled where it happens. */
  predicate IsRun(s: Dir, xs: seq<Input>)
    decreases |xs|
  {
    xs == [] || (Enabled(s, xs[0].event) && IsRun(Step(s, xs[0]), xs[1..]))
  }

  function RunFrom(s: Dir, xs: seq<Input>): Dir
    decreases |xs|
  {
    if xs == [] then s else RunFrom(Step(s, xs[0]), xs[1..])
  }
}
