/** The workers of desktop_wbar.c that set the root wallpaper and restart the wbar dock, as
    interleaved steps over a mutex and a generation counter. */
module Wbar {
  import opened Basics

  /** Where a worker stands in desktop_wbar_update_thread. */
  datatype Pc =
    | Waiting       // for update_lock
    | Checking      // about to compare its generation with the counter
    | Applying      // about to set the wallpaper
    | Counting      // about to look for wbar processes
    | Stopping      // about to stop them
    | Reapplying    // about to set the wallpaper again
    | Recounting    // about to look for survivors and stop them
    | Starting      // about to start wbar
    | Unlocking     // about to release update_lock
    | Done

  datatype Worker = Worker(path: string, generation: nat, pc: Pc)

  /** `applied` is the last wallpaper set; `bar` is the wallpaper the running wbar has taken
      its background from, if one is running. */
  datatype State = State(lock: Option<nat>, generation: nat, workers: seq<Worker>, applied: string, bar: Option<string>)

  /** A request from the desktop, or one step of a worker; a stubborn wbar survives being
      stopped the first time. */
  datatype Op = Request(path: string) | Work(worker: nat, stubborn: bool)

  /** The counter is a 32-bit integer. */
  const WRAP: nat := 0x1_0000_0000

  /** desktop_wbar_wallpaper_changed */
  function Requested(s: State, path: string): State {
    if path == "" then s
    else
      var generation := (s.generation + 1) % WRAP;
      s.(generation := generation, workers := s.workers + [Worker(path, generation, Waiting)])
  }

  predicate Enabled(s: State, op: Op) {
    op.Work? ==>
      op.worker < |s.workers| && s.workers[op.worker].pc != Done
      && (s.workers[op.worker].pc == Waiting ==> s.lock == None)
  }

  function At(s: State, i: nat, pc: Pc): State
    requires i < |s.workers|
  {
    s.(workers := s.workers[i := s.workers[i].(pc := pc)])
  }

  /** The next step of desktop_wbar_update_thread for worker `i`. */
  function Worked(s: State, i: nat, stubborn: bool): State
    requires Enabled(s, Work(i, stubborn))
  {
    var w := s.workers[i];
    match w.pc
    case Waiting => At(s.(lock := Some(i)), i, Checking)
    case Checking => At(s, i, if w.generation != s.generation then Unlocking else Applying)
    case Applying => At(s.(applied := w.path), i, Counting)
    case Counting => At(s, i, if s.bar == None then Unlocking else Stopping)
    case Stopping => At(s.(bar := if stubborn then s.bar else None), i, Reapplying)
    case Reapplying => At(s.(applied := w.path), i, Recounting)
    case Recounting => At(s.(bar := None), i, Starting)
    case Starting => At(s.(bar := Some(s.applied)), i, Unlocking)
    case Unlocking => At(s.(lock := None), i, Done)
    case Done => s
  }

  function Step(s: State, op: Op): State
    requires Enabled(s, op)
  {
    match op
    case Request(path) => Requested(s, path)
    case Work(i, stubborn) => Worked(s, i, stubborn)
  }

  /** The program's shared variables and what the workers do with them, a step at a time. */
  class Desktop {
    var updateLock: Option<nat>
    var updateGeneration: nat
    var workers: seq<Worker>
    var root: string
    var bar: Option<string>

    ghost function Abs(): State
      reads this
    {
      State(updateLock, updateGeneration, workers, root, bar)
    }

    constructor (root: string, bar: Option<string>)
      ensures Abs() == State(None, 0, [], root, bar)
    {
      updateLock, updateGeneration, workers := None, 0, [];
      this.root, this.bar := root, bar;
    }

    method WallpaperChanged(path: string)
      modifies this
      ensures Abs() == Step(old(Abs()), Request(path))
    {
      if path == "" { return; }
      updateGeneration := (updateGeneration + 1) % WRAP;
      workers := workers + [Worker(path, updateGeneration, Waiting)];
    }

    method UpdateThread(i: nat, stubborn: bool)
      requires Enabled(Abs(), Work(i, stubborn))
      modifies this
      ensures Abs() == Step(old(Abs()), Work(i, stubborn))
    {
      var update := workers[i];
      var next := Done;
      match update.pc {
        case Waiting => updateLock := Some(i); next := Checking;
        case Checking => next := if update.generation != updateGeneration then Unlocking else Applying;
        case Applying => root := update.path; next := Counting;
        case Counting => next := if bar == None then Unlocking else Stopping;
        case Stopping => if !stubborn { bar := None; } next := Reapplying;
        case Reapplying => root := update.path; next := Recounting;
        case Recounting => if bar != None { bar := None; } next := Starting;
        case Starting => bar := Some(root); next := Unlocking;
        case Unlocking => updateLock := None;
      }
      workers := workers[i := update.(pc := next)];
    }
  }

  // ----- the invariant

  predicate InSection(pc: Pc) {
    pc != Waiting && pc != Done
  }

  /** The worker has found itself to be the newest and is not through yet. */
  predicate Chosen(pc: Pc) {
    pc == Applying || pc == Counting || pc == Stopping || pc == Reapplying || pc == Recounting || pc == Starting
  }

  /** The wallpaper has been set. */
  predicate HasApplied(pc: Pc) {
    (Chosen(pc) && pc != Applying) || pc == Unlocking || pc == Done
  }

  ghost predicate Counted(s: State) {
    s.generation == |s.workers| % WRAP && forall i :: 0 <= i < |s.workers| ==> s.workers[i].generation == (i + 1) % WRAP
  }

  /** The lock is held by the one worker that is in the section. */
  ghost predicate Exclusive(s: State) {
    && (s.lock.Some? ==> s.lock.value < |s.workers|)
    && forall i :: 0 <= i < |s.workers| ==> (InSection(s.workers[i].pc) <==> s.lock == Some(i))
  }

  /** While an older worker works, the newest waits. */
  ghost predicate NewestWaits(s: State) {
    forall i :: 0 <= i < |s.workers| - 1 && Chosen(s.workers[i].pc) ==> s.workers[|s.workers| - 1].pc == Waiting
  }

  /** What the newest worker has done. */
  ghost predicate Newest(s: State) {
    s.workers != [] ==>
      var w := s.workers[|s.workers| - 1];
      && (HasApplied(w.pc) ==> s.applied == w.path)
      && (w.pc == Starting ==> s.bar == None)
      && (w.pc == Unlocking || w.pc == Done ==> s.bar == None || s.bar == Some(w.path))
  }

  ghost predicate Inv(s: State) {
    Counted(s) && Exclusive(s) && NewestWaits(s) && Newest(s)
  }

  /** When the check lets a worker through: when no request is newer, up to wrap-around. */
  lemma CheckExact(s: State, i: nat, stubborn: bool)
    requires Counted(s) && i < |s.workers| && s.workers[i].pc == Checking
    ensures Worked(s, i, stubborn).workers[i].pc == Applying <==> (|s.workers| - (i + 1)) % WRAP == 0
  {
  }

  /** Unless the step is the check of a worker exactly a multiple of 2^32 requests behind, made
      when the newest worker is already through. */
  predicate OnTime(s: State, op: Op) {
    op.Work? && op.worker < |s.workers| - 1 && s.workers[op.worker].pc == Checking ==>
      (|s.workers| - (op.worker + 1)) % WRAP == 0 ==> s.workers[|s.workers| - 1].pc == Waiting
  }

  lemma StepKeeps(s: State, op: Op)
    requires Inv(s) && OnTime(s, op) && Enabled(s, op)
    ensures Inv(Step(s, op))
  {
    match op
    case Request(path) => RequestKeeps(s, path);
    case Work(i, stubborn) =>
      if s.workers[i].pc == Checking { CheckExact(s, i, stubborn); }
      hide Worked;
      WorkKeepsCount(s, i, stubborn);
      WorkKeepsExclusive(s, i, stubborn);
      WorkKeepsWaiting(s, i, stubborn);
      WorkKeepsNewest(s, i, stubborn);
  }

  /** Such a check, when the newest worker is done, puts the older wallpaper in its place. */
  lemma LateCheckUndoes(s: State, i: nat)
    requires Counted(s) && i < |s.workers| && s.workers[i].pc == Checking && !OnTime(s, Work(i, false))
    ensures var t := Worked(s, i, false);
      Enabled(t, Work(i, false)) && Worked(t, i, false).applied == s.workers[i].path
  {
    CheckExact(s, i, false);
  }

  /** A request puts things right whatever came before: its worker is waiting. */
  lemma RequestKeeps(s: State, path: string)
    requires Counted(s) && Exclusive(s) && (path == "" ==> NewestWaits(s) && Newest(s))
    ensures Inv(Requested(s, path))
  {
    if path != "" { NextGeneration(|s.workers|); }
  }

  lemma NextGeneration(n: nat)
    ensures (n % WRAP + 1) % WRAP == (n + 1) % WRAP
  {
  }

  lemma WorkKeepsCount(s: State, i: nat, stubborn: bool)
    requires Counted(s) && Enabled(s, Work(i, stubborn))
    ensures Counted(Worked(s, i, stubborn))
  {
  }

  lemma WorkKeepsExclusive(s: State, i: nat, stubborn: bool)
    requires Exclusive(s) && Enabled(s, Work(i, stubborn))
    ensures Exclusive(Worked(s, i, stubborn))
  {
  }

  /** A check lets the newest worker through, and an older one only while the newest waits. */
  ghost predicate ChecksRight(s: State, i: nat, stubborn: bool)
    requires Enabled(s, Work(i, stubborn))
  {
    var last := |s.workers| - 1;
    s.workers[i].pc == Checking ==>
      if i == last then Worked(s, i, stubborn).workers[i].pc == Applying
      else Worked(s, i, stubborn).workers[i].pc == Applying ==> s.workers[last].pc == Waiting
  }

  lemma WorkKeepsWaiting(s: State, i: nat, stubborn: bool)
    requires Exclusive(s) && NewestWaits(s) && Enabled(s, Work(i, stubborn))
    requires ChecksRight(s, i, stubborn)
    ensures NewestWaits(Worked(s, i, stubborn))
  {
  }

  lemma WorkKeepsNewest(s: State, i: nat, stubborn: bool)
    requires Inv(s) && Enabled(s, Work(i, stubborn)) && ChecksRight(s, i, stubborn)
    ensures Newest(Worked(s, i, stubborn))
  {
    var t := Worked(s, i, stubborn);
    var last := |s.workers| - 1;
    if i != last {
      assert t.workers[last] == s.workers[last];
      assert Chosen(s.workers[i].pc) ==> s.workers[last].pc == Waiting;
    }
  }

  // ----- whole runs

  ghost predicate IsRun(s: State, ops: seq<Op>)
    decreases |ops|, 0
  {
    ops == [] || (IsRun(s, ops[..|ops| - 1]) && Enabled(Run(s, ops[..|ops| - 1]), ops[|ops| - 1]))
  }

  ghost function Run(s: State, ops: seq<Op>): State
    requires IsRun(s, ops)
    decreases |ops|, 1
  {
    if ops == [] then s else Step(Run(s, ops[..|ops| - 1]), ops[|ops| - 1])
  }

  function Initial(root: string, bar: Option<string>): State {
    State(None, 0, [], root, bar)
  }

  /** Every check since the last request has been on time. */
  ghost predicate AllOnTime(s: State, ops: seq<Op>)
    requires IsRun(s, ops)
    decreases |ops|
  {
    ops == [] ||
    var init, op := ops[..|ops| - 1], ops[|ops| - 1];
    (op.Request? && op.path != "") || (AllOnTime(s, init) && OnTime(Run(s, init), op))
  }

  /** In every interleaving no two workers overlap between setting the wallpaper and
      restarting wbar. */
  lemma {:induction false} NoOverlap(root: string, bar: Option<string>, ops: seq<Op>)
    requires IsRun(Initial(root, bar), ops)
    ensures var s := Run(Initial(root, bar), ops);
      && Exclusive(s)
      && forall i, j :: 0 <= i < j < |s.workers| ==> !(InSection(s.workers[i].pc) && InSection(s.workers[j].pc))
  {
    if ops != [] {
      NoOverlap(root, bar, ops[..|ops| - 1]);
      var s, op := Run(Initial(root, bar), ops[..|ops| - 1]), ops[|ops| - 1];
      match op
      case Request(path) =>
      case Work(i, stubborn) => WorkKeepsExclusive(s, i, stubborn);
    }
  }

  lemma {:induction false} RunCounted(root: string, bar: Option<string>, ops: seq<Op>)
    requires IsRun(Initial(root, bar), ops)
    ensures Counted(Run(Initial(root, bar), ops))
  {
    if ops != [] {
      var init, op := ops[..|ops| - 1], ops[|ops| - 1];
      var s := Run(Initial(root, bar), init);
      RunCounted(root, bar, init);
      match op
      case Request(path) => NextGeneration(|s.workers|);
      case Work(i, stubborn) => WorkKeepsCount(s, i, stubborn);
    }
  }

  lemma {:induction false} RunKeeps(root: string, bar: Option<string>, ops: seq<Op>)
    requires IsRun(Initial(root, bar), ops) && AllOnTime(Initial(root, bar), ops)
    ensures Inv(Run(Initial(root, bar), ops))
  {
    hide Counted, Exclusive, NewestWaits, Newest;
    if ops == [] {
      InitialKeeps(root, bar);
    } else {
      var init, op := ops[..|ops| - 1], ops[|ops| - 1];
      if op.Request? && op.path != "" {
        RunCounted(root, bar, init);
        NoOverlap(root, bar, init);
        RequestKeeps(Run(Initial(root, bar), init), op.path);
      } else {
        RunKeeps(root, bar, init);
        StepKeeps(Run(Initial(root, bar), init), op);
      }
    }
  }

  lemma InitialKeeps(root: string, bar: Option<string>)
    ensures Inv(Initial(root, bar))
  {
  }

  /** When all workers are done, the newest request's wallpaper is the one last set, and a
      running wbar shows it: in every interleaving in which, since the last request, no check
      comes exactly a multiple of 2^32 requests late, after the newest worker. */
  lemma LastRequestWins(root: string, bar: Option<string>, ops: seq<Op>)
    requires IsRun(Initial(root, bar), ops) && AllOnTime(Initial(root, bar), ops)
    ensures var s := Run(Initial(root, bar), ops);
      s.workers != [] && (forall i :: 0 <= i < |s.workers| ==> s.workers[i].pc == Done) ==>
        var newest := s.workers[|s.workers| - 1].path;
        s.applied == newest && s.lock == None && (s.bar == None || s.bar == Some(newest))
  {
    hide Inv;
    RunKeeps(root, bar, ops);
    AllDone(Run(Initial(root, bar), ops));
  }

  lemma AllDone(s: State)
    requires Inv(s)
    ensures s.workers != [] && (forall i :: 0 <= i < |s.workers| ==> s.workers[i].pc == Done) ==>
      var newest := s.workers[|s.workers| - 1].path;
      s.applied == newest && s.lock == None && (s.bar == None || s.bar == Some(newest))
  {
  }

  // ----- who wins

  /** The worker that the check has let through last. */
  ghost function LastThrough(s: State, ops: seq<Op>): Option<nat>
    requires IsRun(s, ops)
    decreases |ops|
  {
    if ops == [] then None
    else
      var init, op := ops[..|ops| - 1], ops[|ops| - 1];
      if op.Work? && Passes(Run(s, init), op) then Some(op.worker) else LastThrough(s, init)
  }

  predicate Passes(s: State, op: Op)
    requires op.Work? && Enabled(s, op)
  {
    s.workers[op.worker].pc == Checking && Worked(s, op.worker, op.stubborn).workers[op.worker].pc == Applying
  }

  /** Only that worker is at work; the wallpaper set last is its own, once it has set it, and
      the bar shows no other, once it is through with that. */
  ghost predicate Owner(s: State, t: Option<nat>) {
    && (forall i :: 0 <= i < |s.workers| && Chosen(s.workers[i].pc) ==> t == Some(i))
    && (t.Some? ==>
          && t.value < |s.workers|
          && var w := s.workers[t.value];
          && w.pc != Waiting && w.pc != Checking
          && (w.pc != Applying ==> s.applied == w.path)
          && (w.pc == Starting ==> s.bar == None)
          && (w.pc == Unlocking || w.pc == Done ==> s.bar == None || s.bar == Some(w.path)))
  }

  /** Once the newest worker has been let through it is that worker, until a check comes late. */
  ghost predicate NewestOwns(s: State, t: Option<nat>, onTime: bool) {
    s.workers != [] ==>
      var last := |s.workers| - 1; var pc := s.workers[last].pc;
      if onTime then (t == Some(last) <==> pc != Waiting && pc != Checking)
      else pc == Done && t.Some? && t != Some(last)
  }

  lemma OwnerStep(s: State, t: Option<nat>, i: nat, stubborn: bool)
    requires Exclusive(s) && Owner(s, t) && Enabled(s, Work(i, stubborn))
    ensures Owner(Worked(s, i, stubborn), if Passes(s, Work(i, stubborn)) then Some(i) else t)
  {
  }

  lemma NewestStep(s: State, t: Option<nat>, onTime: bool, i: nat, stubborn: bool)
    requires Counted(s) && Exclusive(s) && Owner(s, t) && NewestOwns(s, t, onTime) && Enabled(s, Work(i, stubborn))
    ensures NewestOwns(Worked(s, i, stubborn), if Passes(s, Work(i, stubborn)) then Some(i) else t,
                       onTime && OnTime(s, Work(i, stubborn)))
  {
    var last, s1 := |s.workers| - 1, Worked(s, i, stubborn);
    if s.workers[i].pc == Checking { CheckExact(s, i, stubborn); }
    assert i != last ==> s1.workers[last] == s.workers[last];
    hide Counted;
    if i == last {
      NewestOwn(s, t, onTime, stubborn);
    } else {
      assert s.workers[i].pc == Checking ==> InSection(s.workers[i].pc) && s.lock == Some(i);
    }
  }

  /** The newest worker's own step. */
  lemma NewestOwn(s: State, t: Option<nat>, onTime: bool, stubborn: bool)
    requires s.workers != [] && Enabled(s, Work(|s.workers| - 1, stubborn))
    requires NewestOwns(s, t, onTime)
    requires var last := |s.workers| - 1; s.workers[last].pc == Checking ==> Passes(s, Work(last, stubborn))
    ensures var last := |s.workers| - 1;
      && onTime
      && NewestOwns(Worked(s, last, stubborn), if Passes(s, Work(last, stubborn)) then Some(last) else t, true)
  {
  }

  lemma {:induction false} RunOwned(root: string, bar: Option<string>, ops: seq<Op>)
    requires IsRun(Initial(root, bar), ops)
    ensures var s0 := Initial(root, bar); var s, t := Run(s0, ops), LastThrough(s0, ops);
      Owner(s, t) && NewestOwns(s, t, AllOnTime(s0, ops))
  {
    hide Counted, Exclusive, Passes, Owner, NewestOwns, Worked, OnTime;
    if ops == [] {
      NobodyOwns(root, bar);
    } else {
      var init, op, s0 := ops[..|ops| - 1], ops[|ops| - 1], Initial(root, bar);
      var s, t := Run(s0, init), LastThrough(s0, init);
      RunOwned(root, bar, init);
      RunCounted(root, bar, init);
      NoOverlap(root, bar, init);
      match op
      case Request(path) =>
        assert OnTime(s, op) by { RequestOnTime(s, path); }
        OwnerRequest(s, t, AllOnTime(s0, init), path);
      case Work(i, stubborn) =>
        OwnerStep(s, t, i, stubborn);
        NewestStep(s, t, AllOnTime(s0, init), i, stubborn);
    }
  }

  lemma NobodyOwns(root: string, bar: Option<string>)
    ensures Owner(Initial(root, bar), None) && NewestOwns(Initial(root, bar), None, true)
  {
  }

  lemma RequestOnTime(s: State, path: string)
    ensures OnTime(s, Request(path))
  {
  }

  lemma OwnerRequest(s: State, t: Option<nat>, onTime: bool, path: string)
    requires Owner(s, t) && NewestOwns(s, t, onTime)
    ensures Owner(Requested(s, path), t) && NewestOwns(Requested(s, path), t, onTime || path != "")
  {
  }

  /** In every interleaving, when all workers are done, the wallpaper last set is that of the
      worker let through last, and a running wbar shows it.  That is the newest worker if and
      only if no check since the last request has come late: so the newest request wins exactly
      then, or when the late worker was asked for the same wallpaper. */
  lemma LastRequestWinsIff(root: string, bar: Option<string>, ops: seq<Op>)
    requires IsRun(Initial(root, bar), ops)
    ensures var s0 := Initial(root, bar); var s, t := Run(s0, ops), LastThrough(s0, ops);
      s.workers != [] && (forall i :: 0 <= i < |s.workers| ==> s.workers[i].pc == Done) ==>
        var last := |s.workers| - 1;
        && t.Some? && t.value <= last && s.applied == s.workers[t.value].path
        && (s.bar == None || s.bar == Some(s.applied))
        && (t.value == last <==> AllOnTime(s0, ops))
        && (s.applied == s.workers[last].path <==>
              AllOnTime(s0, ops) || s.workers[t.value].path == s.workers[last].path)
  {
    RunOwned(root, bar, ops);
  }

  // ----- it comes to an end

  function Left(pc: Pc): nat {
    match pc
    case Waiting => 9 case Checking => 8 case Applying => 7 case Counting => 6 case Stopping => 5
    case Reapplying => 4 case Recounting => 3 case Starting => 2 case Unlocking => 1 case Done => 0
  }

  function Remaining(ws: seq<Worker>): nat {
    if ws == [] then 0 else Remaining(ws[..|ws| - 1]) + Left(ws[|ws| - 1].pc)
  }

  lemma {:induction false} WorkFalls(ws: seq<Worker>, i: nat, pc: Pc)
    requires i < |ws| && Left(pc) < Left(ws[i].pc)
    ensures Remaining(ws[i := ws[i].(pc := pc)]) < Remaining(ws)
  {
    var n := |ws| - 1;
    var vs := ws[i := ws[i].(pc := pc)];
    if i < n {
      assert vs[..n] == ws[..n][i := ws[i].(pc := pc)];
      WorkFalls(ws[..n], i, pc);
    } else {
      assert vs[..n] == ws[..n];
    }
  }

  /** Until all workers are done some worker can take a step. */
  lemma Progress(s: State) returns (i: nat)
    requires Exclusive(s) && exists j :: 0 <= j < |s.workers| && s.workers[j].pc != Done
    ensures Enabled(s, Work(i, false)) && Enabled(s, Work(i, true))
  {
    if s.lock.Some? {
      i := s.lock.value;
      assert InSection(s.workers[i].pc);
    } else {
      i :| 0 <= i < |s.workers| && s.workers[i].pc != Done;
    }
  }

  lemma WorkFallsWith(s: State, i: nat, stubborn: bool)
    requires Enabled(s, Work(i, stubborn))
    ensures Remaining(Worked(s, i, stubborn).workers) < Remaining(s.workers)
  {
    WorkFalls(s.workers, i, Worked(s, i, stubborn).workers[i].pc);
  }

  /** Without new requests the workers take only so many steps. */
  lemma {:induction false} RunsEnd(s: State, ops: seq<Op>)
    requires IsRun(s, ops) && forall k :: 0 <= k < |ops| ==> ops[k].Work?
    ensures |ops| <= Remaining(s.workers) - Remaining(Run(s, ops).workers)
  {
    if ops != [] {
      var n := |ops| - 1;
      RunsEnd(s, ops[..n]);
      WorkFallsWith(Run(s, ops[..n]), ops[n].worker, ops[n].stubborn);
    }
  }

  // ----- whether a wbar runs

  /** A worker is between stopping wbar and starting it again. */
  predicate Restarting(pc: Pc) {
    pc == Reapplying || pc == Recounting || pc == Starting
  }

  /** Where none ran none is stopped or started; where one ran one runs, unless a worker is about
      to start it again. */
  ghost predicate BarKept(s: State, ran: bool) {
    if ran then s.bar.Some? || exists i :: 0 <= i < |s.workers| && Restarting(s.workers[i].pc)
    else s.bar == None && forall i :: 0 <= i < |s.workers| ==>
           !Restarting(s.workers[i].pc) && s.workers[i].pc != Stopping
  }

  lemma WorkKeepsBar(s: State, ran: bool, i: nat, stubborn: bool)
    requires Exclusive(s) && BarKept(s, ran) && Enabled(s, Work(i, stubborn))
    ensures BarKept(Worked(s, i, stubborn), ran)
  {
    var t := Worked(s, i, stubborn);
    assert t.workers[i].pc != s.workers[i].pc;
    assert forall k :: 0 <= k < |s.workers| && k != i ==> t.workers[k] == s.workers[k];
    if ran && t.bar == None {
      if s.bar == None {
        var k :| 0 <= k < |s.workers| && Restarting(s.workers[k].pc);
        assert InSection(s.workers[k].pc) && k == i;
      }
      assert Restarting(t.workers[i].pc);
    }
  }

  lemma {:induction false} RunKeepsBar(root: string, bar: Option<string>, ops: seq<Op>)
    requires IsRun(Initial(root, bar), ops)
    ensures BarKept(Run(Initial(root, bar), ops), bar.Some?)
  {
    hide Exclusive, Worked;
    if ops != [] {
      var init, op := ops[..|ops| - 1], ops[|ops| - 1];
      RunKeepsBar(root, bar, init);
      NoOverlap(root, bar, init);
      match op
      case Request(path) => RequestKeepsBar(Run(Initial(root, bar), init), bar.Some?, path);
      case Work(i, stubborn) => WorkKeepsBar(Run(Initial(root, bar), init), bar.Some?, i, stubborn);
    }
  }

  lemma RequestKeepsBar(s: State, ran: bool, path: string)
    requires BarKept(s, ran)
    ensures BarKept(Requested(s, path), ran)
  {
    var t := Requested(s, path);
    if ran && s.bar == None {
      var k :| 0 <= k < |s.workers| && Restarting(s.workers[k].pc);
      assert Restarting(t.workers[k].pc);
    }
  }

  /** In every interleaving, when all workers are done a wbar runs if and only if one ran to begin
      with. */
  lemma BarInTheEnd(root: string, bar: Option<string>, ops: seq<Op>)
    requires IsRun(Initial(root, bar), ops)
    ensures var s := Run(Initial(root, bar), ops);
      (forall i :: 0 <= i < |s.workers| ==> s.workers[i].pc == Done) ==> (s.bar.Some? <==> bar.Some?)
  {
    RunKeepsBar(root, bar, ops);
  }

  /** None runs while the wallpaper is set for the second time, unless it survived being stopped;
      and none when it is started. */
  ghost predicate BarStopped(s: State, stubborn: bool) {
    forall i :: 0 <= i < |s.workers| ==>
      && (s.workers[i].pc == Starting ==> s.bar == None)
      && (!stubborn && Restarting(s.workers[i].pc) ==> s.bar == None)
  }

  lemma {:induction false} StoppedBefore(root: string, bar: Option<string>, ops: seq<Op>, stubborn: bool)
    requires IsRun(Initial(root, bar), ops)
    requires !stubborn ==> forall k :: 0 <= k < |ops| && ops[k].Work? ==> !ops[k].stubborn
    ensures BarStopped(Run(Initial(root, bar), ops), stubborn)
  {
    hide Exclusive, Worked;
    if ops != [] {
      var init, op := ops[..|ops| - 1], ops[|ops| - 1];
      StoppedBefore(root, bar, init, stubborn);
      NoOverlap(root, bar, init);
      if op.Work? { WorkStops(Run(Initial(root, bar), init), op.worker, op.stubborn, stubborn); }
    }
  }

  lemma WorkStops(s: State, i: nat, survives: bool, stubborn: bool)
    requires Exclusive(s) && BarStopped(s, stubborn) && Enabled(s, Work(i, survives)) && (!stubborn ==> !survives)
    ensures BarStopped(Worked(s, i, survives), stubborn)
  {
    var t := Worked(s, i, survives);
    forall k | 0 <= k < |t.workers| && k != i
      ensures t.workers[k] == s.workers[k] && !(InSection(s.workers[k].pc) && InSection(s.workers[i].pc))
    {
    }
  }
}
