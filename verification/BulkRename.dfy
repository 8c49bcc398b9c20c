/** Renaming many files at once (bulk_rename.c): the plan is checked first and then executed
    row by row. */
module BulkRename {
  import opened Basics

  /** A dangling symbolic link exists, but access() does not see it. */
  datatype Node = File(id: nat) | Directory(id: nat) | DanglingLink(id: nat)

  /** A place a file can be at: in the directory whose files are renamed, or elsewhere. */
  datatype Place = Here(leaf: string) | There(path: string)

  type World = map<Place, Node>

  datatype Row = Row(before: string, after: string)
  {
    predicate Renames() { after != "" && after != before }
  }

  /** What else decides the system calls: for a name with slashes, whether access() finds it
      when the plan is checked and the place it leads to when its turn comes; and which renames
      fail for reasons of their own. */
  datatype Outside = Outside(found: string -> bool, place: string -> Place, refused: Row -> bool)

  datatype Verdict = Passed | EmptyModel | UsedTwice(name: string) | Exists(name: string) | Cancelled | NothingToDo

  predicate HasSlash(name: string) {
    '/' in name
  }

  function PlaceOf(o: Outside, name: string): Place {
    if HasSlash(name) then o.place(name) else Here(name)
  }

  /** The directory itself and its parent, which are not among its files. */
  predicate Dots(p: Place) {
    p == Here(".") || p == Here("..")
  }

  /** access(path, F_OK) == 0 when the name's turn comes */
  predicate Accessible(o: Outside, w: World, name: string) {
    var p := PlaceOf(o, name);
    Dots(p) || (p in w && !w[p].DanglingLink?)
  }

  /** The same when the plan is checked. */
  predicate Taken(o: Outside, w: World, name: string) {
    if HasSlash(name) then o.found(name) else Accessible(o, w, name)
  }

  /** do_rename succeeds; rename() itself replaces a link that access() does not see, though
      not by a directory. */
  predicate StepOk(o: Outside, w: World, row: Row) {
    && !Accessible(o, w, row.after)
    && Here(row.before) in w && !o.refused(row)
    && !(PlaceOf(o, row.after) in w && w[Here(row.before)].Directory?)
  }

  function Moved(o: Outside, w: World, row: Row): World
    requires Here(row.before) in w
  {
    (w - {Here(row.before)})[PlaceOf(o, row.after) := w[Here(row.before)]]
  }

  /** The rows have all been dealt with, in order. */
  function Executed(o: Outside, w: World, rows: seq<Row>): World {
    if rows == [] then w
    else
      var v, row := Executed(o, w, rows[..|rows| - 1]), rows[|rows| - 1];
      if row.Renames() && Here(row.before) in v then Moved(o, v, row) else v
  }

  /** And each rename succeeds when its turn comes. */
  predicate Runs(o: Outside, w: World, rows: seq<Row>) {
    rows == [] ||
    var before, row := rows[..|rows| - 1], rows[|rows| - 1];
    Runs(o, w, before) && (row.Renames() ==> StepOk(o, Executed(o, w, before), row))
  }

  /** All names of the plan: the old ones, and the new ones that are to be used. */
  function NamesOf(rows: seq<Row>): seq<string> {
    if rows == [] then []
    else var row := rows[|rows| - 1];
         NamesOf(rows[..|rows| - 1]) + [row.before] + if row.Renames() then [row.after] else []
  }

  ghost predicate Free(o: Outside, w: World, rows: seq<Row>) {
    forall row :: row in rows && row.Renames() ==> !Taken(o, w, row.after)
  }

  ghost predicate Slashes(rows: seq<Row>) {
    exists row :: row in rows && HasSlash(row.after)
  }

  ghost predicate SomeRename(rows: seq<Row>) {
    exists row :: row in rows && row.Renames()
  }

  class Dialog {
    var files: World
    var list: seq<Row>
    const outside: Outside

    constructor (files: World, list: seq<Row>, outside: Outside)
      ensures this.files == files && this.list == list && this.outside == outside
    {
      this.files, this.list, this.outside := files, list, outside;
    }

    /** do_rename */
    method DoRename(row: Row) returns (ok: bool)
      modifies `files
      ensures ok == StepOk(outside, old(files), row)
      ensures files == if ok then Moved(outside, old(files), row) else old(files)
    {
      if Accessible(outside, files, row.after) { return false; }
      if Here(row.before) !in files || outside.refused(row) { return false; }
      var node, target := files[Here(row.before)], PlaceOf(outside, row.after);
      if target in files && node.Directory? { return false; }
      files := files - {Here(row.before)};
      files := files[target := node];
      ok := true;
    }

    /** The checking half of rename_items. */
    method Check(confirmed: bool) returns (verdict: Verdict)
      ensures verdict == EmptyModel <==> list == []
      ensures verdict.UsedTwice? || verdict.Exists? <==> !NoDups(NamesOf(list)) || !Free(outside, files, list)
      ensures verdict.UsedTwice? ==> !NoDups(NamesOf(list)) && verdict.name in NamesOf(list)
      ensures verdict.Exists? ==> Taken(outside, files, verdict.name) && verdict.name in NamesOf(list)
      ensures verdict == Passed ==> SomeRename(list) && (Slashes(list) ==> confirmed)
      ensures verdict == Cancelled ==> Slashes(list) && !confirmed
      ensures verdict == NothingToDo ==> !SomeRename(list)
    {
      hide NamesOf, NoDups, Free, Slashes, SomeRename, Taken;
      NoRows(outside, files, list);
      if list == [] {
        assert list[..0] == list;
        return EmptyModel;
      }
      var slash, renames := false, 0;
      var names: set<string> := {};
      for i := 0 to |list|
        invariant names == Members(NamesOf(list[..i]))
        invariant NoDups(NamesOf(list[..i])) && Free(outside, files, list[..i])
        invariant slash <==> Slashes(list[..i])
        invariant renames > 0 <==> SomeRename(list[..i])
      {
        var row := list[i];
        NextRow(outside, files, list, i);
        Faulty(outside, files, list, i);
        if !slash && HasSlash(row.after) { slash := true; }
        if row.before in names {
          return UsedTwice(row.before);
        }
        names := names + {row.before};
        if row.after == "" || row.after == row.before { continue; }
        if row.after in names {
          return UsedTwice(row.after);
        }
        names := names + {row.after};
        if Taken(outside, files, row.after) {
          return Exists(row.after);
        }
        renames := renames + 1;
      }
      assert list[..|list|] == list;
      if slash && !confirmed { return Cancelled; }
      if renames == 0 { return NothingToDo; }
      return Passed;
    }

    /** rename_items.  The rows that are done have been removed from the list; those that are
        left are exactly the ones that were not executed. */
    method RenameItems(confirmed: bool) returns (success: bool, verdict: Verdict, ghost done: nat)
      modifies `files, `list
      ensures done <= |old(list)| && list == old(list)[done..]
      ensures files == Executed(outside, old(files), old(list)[..done]) && Runs(outside, old(files), old(list)[..done])
      ensures verdict == Passed ==>
                old(list) != [] && NoDups(NamesOf(old(list))) && Free(outside, old(files), old(list))
      ensures verdict != Passed ==> !success && done == 0
      ensures verdict == Passed ==> (success <==> list == [])
      ensures verdict == Passed && !success ==> list[0].Renames() && !StepOk(outside, files, list[0])
    {
      hide NamesOf, NoDups, Free, Moved;
      ghost var rows := list;
      done := 0;
      verdict := Check(confirmed);
      if verdict != Passed { return false, verdict, 0; }
      success := true;
      while success
        invariant done <= |rows| && list == rows[done..]
        invariant files == Executed(outside, old(files), rows[..done]) && Runs(outside, old(files), rows[..done])
        invariant success ==> list != []
        invariant !success ==> list != [] && list[0].Renames() && !StepOk(outside, files, list[0])
        decreases success, |list|
      {
        var row := list[0];
        TakeOne(rows, done);
        var ok := true;
        if row.Renames() { ok := DoRename(row); }
        if ok {
          done := done + 1;
          list := list[1..];
          if list == [] { break; }
        } else {
          success := false;
        }
      }
    }
  }

  lemma TakeOne(rows: seq<Row>, i: nat)
    requires i < |rows|
    ensures rows[..i + 1][..i] == rows[..i] && rows[..i + 1] == rows[..i] + [rows[i]]
  {
  }

  lemma NoRows(o: Outside, w: World, rows: seq<Row>)
    ensures Members(NamesOf(rows[..0])) == {} && NoDups(NamesOf(rows[..0])) && Free(o, w, rows[..0])
    ensures !Slashes(rows[..0]) && !SomeRename(rows[..0])
  {
  }

  lemma NoDupsAdd(s: seq<string>, x: string)
    ensures NoDups(s + [x]) <==> NoDups(s) && x !in s
    ensures Members(s + [x]) == Members(s) + {x}
  {
    var t := s + [x];
    assert t[|s|] == x;
    assert forall i :: 0 <= i < |s| ==> t[i] == s[i];
    if NoDups(t) {
      forall i, j | 0 <= i < j < |s| ensures s[i] != s[j] {
        assert t[i] != t[j];
      }
      forall i | 0 <= i < |s| ensures s[i] != x {
        assert t[i] != t[|s|];
      }
    }
  }

  /** What one more row adds to the names and to the faults of the plan. */
  lemma NextRow(o: Outside, w: World, rows: seq<Row>, i: nat)
    requires i < |rows|
    ensures var row := rows[i]; var (now, next) := (rows[..i], rows[..i + 1]); var names := Members(NamesOf(now));
      && Members(NamesOf(next)) == names + {row.before} + (if row.Renames() then {row.after} else {})
      && (NoDups(NamesOf(next)) <==>
           NoDups(NamesOf(now)) && row.before !in names && (row.Renames() ==> row.after !in names))
      && (Free(o, w, next) <==> Free(o, w, now) && (row.Renames() ==> !Taken(o, w, row.after)))
      && (Slashes(next) <==> Slashes(now) || HasSlash(row.after))
      && (SomeRename(next) <==> SomeRename(now) || row.Renames())
  {
    var row := rows[i];
    TakeOne(rows, i);
    NoDupsAdd(NamesOf(rows[..i]), row.before);
    NoDupsAdd(NamesOf(rows[..i]) + [row.before], row.after);
    assert forall r :: r in rows[..i + 1] <==> r in rows[..i] || r == row;
    assert NamesOf(rows[..i]) + [row.before] + [] == NamesOf(rows[..i]) + [row.before];
  }

  /** A longer plan has all the names and all the faults of a shorter one. */
  lemma Faulty(o: Outside, w: World, rows: seq<Row>, i: nat)
    requires i < |rows|
    ensures !NoDups(NamesOf(rows[..i + 1])) ==> !NoDups(NamesOf(rows))
    ensures !Free(o, w, rows[..i + 1]) ==> !Free(o, w, rows)
    ensures rows[i].before in NamesOf(rows) && (rows[i].Renames() ==> rows[i].after in NamesOf(rows))
  {
    Longer(rows, i);
    TakeOne(rows, i);
    var some, all := NamesOf(rows[..i + 1]), NamesOf(rows);
    assert forall k :: 0 <= k < |some| ==> some[k] == all[k];
    assert rows[i].before in some && (rows[i].Renames() ==> rows[i].after in some);
  }

  /** The names of a shorter plan come first. */
  lemma {:induction false} Longer(rows: seq<Row>, i: nat)
    requires i < |rows|
    ensures NamesOf(rows[..i + 1]) <= NamesOf(rows)
    decreases |rows|
  {
    if i + 1 == |rows| {
      assert rows[..i + 1] == rows;
    } else {
      assert rows[..|rows| - 1][..i + 1] == rows[..i + 1];
      Longer(rows[..|rows| - 1], i);
    }
  }

  /** What the check lets through: a row with no new name, or with the old one, asks for nothing;
      any other new name is not found by access(), which sees the two dot names and everything
      but dangling links. */
  lemma FreeIff(o: Outside, w: World, rows: seq<Row>)
    ensures Free(o, w, rows) <==>
      forall row :: row in rows && row.after != "" && row.after != row.before ==>
        if '/' in row.after then !o.found(row.after)
        else row.after != "." && row.after != ".." && (Here(row.after) in w ==> w[Here(row.after)].DanglingLink?)
  {
  }

  /** The names in the plan are the old names of all rows and the new names that are asked for. */
  lemma {:induction false} NamesAre(rows: seq<Row>, name: string)
    ensures name in NamesOf(rows) <==>
      exists row :: row in rows &&
        (name == row.before || (name == row.after && row.after != "" && row.after != row.before))
  {
    if rows != [] {
      var init, last := rows[..|rows| - 1], rows[|rows| - 1];
      NamesAre(init, name);
      assert forall row :: row in rows <==> row in init || row == last;
    }
  }

  // ----- what a run of renames does

  /** The place of a new name. */
  ghost predicate IsNew(o: Outside, rows: seq<Row>, p: Place) {
    exists row :: row in rows && row.Renames() && PlaceOf(o, row.after) == p
  }

  /** The place of a file that is renamed. */
  ghost predicate IsOld(rows: seq<Row>, p: Place) {
    exists row :: row in rows && row.Renames() && Here(row.before) == p
  }

  /** Every renamed file is at its new place, with what it holds. */
  ghost predicate Arrived(o: Outside, w: World, v: World, rows: seq<Row>) {
    forall row :: row in rows && row.Renames() ==>
      Here(row.before) in w && PlaceOf(o, row.after) in v && v[PlaceOf(o, row.after)] == w[Here(row.before)]
  }

  /** The others are where they were, and there is nothing else. */
  ghost predicate Stayed(o: Outside, w: World, v: World, rows: seq<Row>) {
    && (forall p :: p in w && !IsOld(rows, p) && !IsNew(o, rows, p) ==> p in v && v[p] == w[p])
    && (forall p :: p in v ==> (p in w && !IsOld(rows, p)) || IsNew(o, rows, p))
  }

  ghost predicate RenamedBy(o: Outside, w: World, v: World, rows: seq<Row>) {
    Arrived(o, w, v, rows) && Stayed(o, w, v, rows)
  }

  /** No two new names lead to one place, no file is renamed twice, and no new name leads to
      a place from which a later row takes its file. */
  ghost predicate Distinct(o: Outside, rows: seq<Row>) {
    rows == [] ||
    var init, row := rows[..|rows| - 1], rows[|rows| - 1];
    && Distinct(o, init)
    && (row.Renames() ==>
         && !IsNew(o, init, PlaceOf(o, row.after))
         && !IsNew(o, init, Here(row.before)) && !IsOld(init, Here(row.before)))
  }

  ghost predicate SlashFree(rows: seq<Row>) {
    forall row :: row in rows ==> !HasSlash(row.after)
  }

  /** The names of the last row are not among those of the rows before it. */
  lemma LastRowApart(rows: seq<Row>)
    requires rows != [] && NoDups(NamesOf(rows))
    ensures var init, row := rows[..|rows| - 1], rows[|rows| - 1];
      && NoDups(NamesOf(init))
      && (forall r :: r in init ==> r.before != row.before && (row.Renames() ==> r.before != row.after))
      && (forall r :: r in init && r.Renames() ==> r.after != row.before && (row.Renames() ==> r.after != row.after))
  {
    var n, o := |rows| - 1, Outside(_ => false, _ => Here(""), _ => false);
    assert rows[..n + 1] == rows;
    NextRow(o, map[], rows, n);
    forall row | row in rows[..n]
      ensures row.before in NamesOf(rows[..n]) && (row.Renames() ==> row.after in NamesOf(rows[..n]))
    {
      var k :| 0 <= k < n && rows[..n][k] == row;
      Faulty(o, map[], rows[..n], k);
    }
  }

  /** Without slashes the check for names that are used twice is all it takes. */
  lemma {:induction false} SlashFreeDistinct(o: Outside, rows: seq<Row>)
    requires SlashFree(rows) && NoDups(NamesOf(rows))
    ensures Distinct(o, rows)
  {
    hide NamesOf, NoDups;
    if rows != [] {
      LastRowApart(rows);
      SlashFreeDistinct(o, rows[..|rows| - 1]);
    }
  }

  /** A run of renames to distinct places, finished or cut short, has moved each of its files
      with what it holds and touched nothing else; only a dangling link can be lost under a new
      name. */
  lemma {:induction false} RunRenames(o: Outside, w: World, rows: seq<Row>)
    requires Distinct(o, rows) && Runs(o, w, rows)
    ensures RenamedBy(o, w, Executed(o, w, rows), rows)
  {
    hide RenamedBy, Moved, IsNew, IsOld, Accessible;
    if rows == [] {
      NoneRenamed(o, w);
    } else {
      var init, row := rows[..|rows| - 1], rows[|rows| - 1];
      RunRenames(o, w, init);
      assert init + [row] == rows;
      RenamesOne(o, w, Executed(o, w, init), init, row);
    }
  }

  lemma NoneRenamed(o: Outside, w: World)
    ensures RenamedBy(o, w, w, [])
  {
  }

  lemma MoreNames(o: Outside, init: seq<Row>, row: Row)
    ensures forall r :: r in init + [row] <==> r in init || r == row
    ensures forall p ::
              IsNew(o, init + [row], p) <==> IsNew(o, init, p) || (row.Renames() && p == PlaceOf(o, row.after))
    ensures forall p :: IsOld(init + [row], p) <==> IsOld(init, p) || (row.Renames() && p == Here(row.before))
  {
    assert row in init + [row];
    assert forall r :: r in init + [row] <==> r in init || r == row;
  }

  lemma RenamesOne(o: Outside, w: World, v: World, init: seq<Row>, row: Row)
    requires RenamedBy(o, w, v, init) && (row.Renames() ==> Here(row.before) in v)
    requires row.Renames() ==> !IsNew(o, init, PlaceOf(o, row.after))
    requires row.Renames() ==> !IsNew(o, init, Here(row.before)) && !IsOld(init, Here(row.before))
    ensures RenamedBy(o, w, if row.Renames() then Moved(o, v, row) else v, init + [row])
  {
    MoreNames(o, init, row);
    if row.Renames() {
      hide Stayed, Arrived, Moved;
      ArrivedOne(o, w, v, init, row);
      StayedOne(o, w, v, init, row);
    } else {
      hide IsNew, IsOld;
    }
  }

  lemma StayedOne(o: Outside, w: World, v: World, init: seq<Row>, row: Row)
    requires Stayed(o, w, v, init) && row.Renames() && Here(row.before) in v
    ensures Stayed(o, w, Moved(o, v, row), init + [row])
  {
    MoreNames(o, init, row);
    hide IsNew, IsOld;
  }

  lemma ArrivedOne(o: Outside, w: World, v: World, init: seq<Row>, row: Row)
    requires Arrived(o, w, v, init) && Stayed(o, w, v, init) && row.Renames() && Here(row.before) in v
    requires !IsNew(o, init, PlaceOf(o, row.after))
    requires !IsNew(o, init, Here(row.before)) && !IsOld(init, Here(row.before))
    ensures Arrived(o, w, Moved(o, v, row), init + [row])
  {
    var u := Moved(o, v, row);
    forall r | r in init + [row] && r.Renames()
      ensures Here(r.before) in w && PlaceOf(o, r.after) in u && u[PlaceOf(o, r.after)] == w[Here(r.before)]
    {
      if r != row {
        assert r in init;
        assert IsNew(o, init, PlaceOf(o, r.after));
      }
    }
  }

  // ----- when the plan succeeds

  /** The plan has passed the check, its files exist, and no rename fails of itself. */
  ghost predicate Good(o: Outside, w: World, rows: seq<Row>) {
    && NoDups(NamesOf(rows)) && Free(o, w, rows)
    && forall row :: row in rows && row.Renames() ==> Here(row.before) in w && !o.refused(row)
  }

  /** There is room for the new name of `row` after the rows `init`: no row before it has put
      anything there, and what was there has been taken away, if it is not the file itself (as
      a link that access() does not see can be). */
  ghost predicate Room(o: Outside, w: World, init: seq<Row>, row: Row) {
    var p, from := PlaceOf(o, row.after), Here(row.before);
    && !Dots(p) && !IsNew(o, init, p) && !IsNew(o, init, from)
    && (p in w ==> IsOld(init, p) || (p == from && w[p].DanglingLink?))
  }

  /** There is room for every new name.  It can be seen before the first rename. */
  ghost predicate ClearPlan(o: Outside, w: World, rows: seq<Row>) {
    rows == [] ||
    var init, row := rows[..|rows| - 1], rows[|rows| - 1];
    ClearPlan(o, w, init) && (row.Renames() ==> Room(o, w, init, row))
  }

  lemma {:induction false} ClearIsDistinct(o: Outside, w: World, rows: seq<Row>)
    requires ClearPlan(o, w, rows) && NoDups(NamesOf(rows))
    ensures Distinct(o, rows)
  {
    hide NamesOf, NoDups;
    if rows != [] {
      LastRowApart(rows);
      ClearIsDistinct(o, w, rows[..|rows| - 1]);
    }
  }

  /** What a new place holds when its turn comes: with room nothing, or the file itself. */
  lemma TurnComes(o: Outside, w: World, v: World, init: seq<Row>, row: Row)
    requires RenamedBy(o, w, v, init) && row.Renames() && Here(row.before) in w && !o.refused(row)
    requires Room(o, w, init, row) && !IsOld(init, Here(row.before))
    ensures StepOk(o, v, row) && |Moved(o, v, row)| == |v|
  {
    hide IsNew, IsOld;
    var from, p := Here(row.before), PlaceOf(o, row.after);
    assert from in v && v[from] == w[from];
    assert p in v ==> p == from;
    MovedSize(o, v, row);
  }

  lemma MovedSize(o: Outside, v: World, row: Row)
    requires Here(row.before) in v
    ensures var p := PlaceOf(o, row.after);
      |Moved(o, v, row)| == |v| - if p in v && p != Here(row.before) then 1 else 0
  {
    var from, p := Here(row.before), PlaceOf(o, row.after);
    var rest := v - {from};
    assert rest.Keys == v.Keys - {from};
    assert Moved(o, v, row).Keys == rest.Keys + {p};
    if p in rest { assert rest.Keys + {p} == rest.Keys; }
  }

  /** Entries are never gained. */
  lemma {:induction false} RunSize(o: Outside, w: World, rows: seq<Row>)
    ensures |Executed(o, w, rows)| <= |w|
  {
    hide Moved;
    if rows != [] {
      var init, row := rows[..|rows| - 1], rows[|rows| - 1];
      RunSize(o, w, init);
      var v := Executed(o, w, init);
      if row.Renames() && Here(row.before) in v { MovedSize(o, v, row); }
    }
  }

  lemma {:induction false} ClearRuns(o: Outside, w: World, rows: seq<Row>)
    requires Good(o, w, rows) && ClearPlan(o, w, rows)
    ensures Runs(o, w, rows) && |Executed(o, w, rows)| == |w|
  {
    hide NamesOf, NoDups, RenamedBy, Moved, IsNew, IsOld, Room, Accessible, Taken, StepOk;
    if rows != [] {
      var init, row := rows[..|rows| - 1], rows[|rows| - 1];
      assert forall r :: r in rows <==> r in init || r == row;
      LastRowApart(rows);
      ClearRuns(o, w, init);
      if row.Renames() {
        ClearIsDistinct(o, w, rows);
        ClearIsDistinct(o, w, init);
        RunRenames(o, w, init);
        TurnComes(o, w, Executed(o, w, init), init, row);
        assert Here(row.before) in Executed(o, w, init) by { StepNeeds(o, Executed(o, w, init), row); }
      }
    }
  }

  lemma StepNeeds(o: Outside, v: World, row: Row)
    requires StepOk(o, v, row)
    ensures Here(row.before) in v
  {
  }

  lemma {:induction false} RunsClear(o: Outside, w: World, rows: seq<Row>)
    requires Good(o, w, rows) && Runs(o, w, rows) && |Executed(o, w, rows)| == |w|
    ensures ClearPlan(o, w, rows)
  {
    hide NamesOf, NoDups, RenamedBy, Moved, IsNew, IsOld, Room, Accessible, Taken, StepOk;
    if rows != [] {
      var init, row := rows[..|rows| - 1], rows[|rows| - 1];
      assert forall r :: r in rows <==> r in init || r == row;
      LastRowApart(rows);
      var v := Executed(o, w, init);
      RunSize(o, w, init);
      if row.Renames() {
        StepNeeds(o, v, row);
        MovedSize(o, v, row);
      }
      RunsClear(o, w, init);
      if row.Renames() {
        ClearIsDistinct(o, w, init);
        RunRenames(o, w, init);
        NotBeforeIt(o, w, init, row);
        HadRoom(o, w, v, init, row);
      }
    }
  }

  /** In a clear plan nothing is put where a later row takes its file. */
  lemma {:induction false} NotBeforeIt(o: Outside, w: World, init: seq<Row>, row: Row)
    requires ClearPlan(o, w, init) && Here(row.before) in w && forall r :: r in init ==> r.before != row.before
    ensures !IsNew(o, init, Here(row.before)) && !IsOld(init, Here(row.before))
  {
    if init != [] {
      var n := |init| - 1;
      NotBeforeIt(o, w, init[..n], row);
      assert forall r :: r in init <==> r in init[..n] || r == init[n];
    }
  }

  lemma HadRoom(o: Outside, w: World, v: World, init: seq<Row>, row: Row)
    requires RenamedBy(o, w, v, init) && row.Renames() && StepOk(o, v, row) && |Moved(o, v, row)| == |v|
    requires !IsNew(o, init, Here(row.before)) && !IsOld(init, Here(row.before))
    ensures Room(o, w, init, row)
  {
    MovedSize(o, v, row);
    var from, p := Here(row.before), PlaceOf(o, row.after);
    assert p in v ==> p == from;
    assert forall r :: r in init && r.Renames() ==> PlaceOf(o, r.after) in v;
  }

  /** A plan that has passed the check is carried out in full and without losing an entry if
      and only if there is room for every new name when its turn comes; then every file has
      kept what it holds. */
  lemma PlanExact(o: Outside, w: World, rows: seq<Row>)
    requires Good(o, w, rows)
    ensures Runs(o, w, rows) && |Executed(o, w, rows)| == |w| <==> ClearPlan(o, w, rows)
    ensures ClearPlan(o, w, rows) ==> RenamedBy(o, w, Executed(o, w, rows), rows)
  {
    hide Good, RenamedBy, Executed;
    if ClearPlan(o, w, rows) {
      ClearRuns(o, w, rows);
      assert NoDups(NamesOf(rows)) by { GoodNames(o, w, rows); }
      ClearIsDistinct(o, w, rows);
      RunRenames(o, w, rows);
    }
    if Runs(o, w, rows) && |Executed(o, w, rows)| == |w| { RunsClear(o, w, rows); }
  }

  lemma GoodNames(o: Outside, w: World, rows: seq<Row>)
    requires Good(o, w, rows)
    ensures NoDups(NamesOf(rows))
  {
  }

  /** Without slashes that is so if and only if no new name belongs to a dangling link. */
  lemma PlanExactSlashFree(o: Outside, w: World, rows: seq<Row>)
    requires Good(o, w, rows) && SlashFree(rows)
    ensures Runs(o, w, rows) && |Executed(o, w, rows)| == |w| <==>
      forall row :: row in rows && row.Renames() ==> Here(row.after) !in w
  {
    hide Good;
    PlanExact(o, w, rows);
    SlashFreeClear(o, w, rows);
  }

  lemma {:induction false} SlashFreeClear(o: Outside, w: World, rows: seq<Row>)
    requires Good(o, w, rows) && SlashFree(rows)
    ensures ClearPlan(o, w, rows) <==> forall row :: row in rows && row.Renames() ==> Here(row.after) !in w
  {
    hide NamesOf, NoDups;
    if rows != [] {
      var init, row := rows[..|rows| - 1], rows[|rows| - 1];
      assert forall r :: r in rows <==> r in init || r == row;
      LastRowApart(rows);
      SlashFreeClear(o, w, init);
    }
  }

  /** The new name of `row` is taken by something that does not let it through: anything that
      access() sees, or a link where a directory is to go. */
  ghost predicate Stuck(o: Outside, w: World, init: seq<Row>, row: Row) {
    var p := PlaceOf(o, row.after);
    row.Renames() &&
    (Dots(p) || (p in w && !IsOld(init, p) &&
                 (!w[p].DanglingLink? || (Here(row.before) in w && w[Here(row.before)].Directory?))))
  }

  ghost predicate NoneStuck(o: Outside, w: World, rows: seq<Row>) {
    rows == [] || (NoneStuck(o, w, rows[..|rows| - 1]) && !Stuck(o, w, rows[..|rows| - 1], rows[|rows| - 1]))
  }

  /** Whether every rename succeeds, for a plan whose names lead to distinct places (as names
      without slashes do): if and only if none is stuck. */
  lemma {:induction false} PlanRuns(o: Outside, w: World, rows: seq<Row>)
    requires Good(o, w, rows) && Distinct(o, rows)
    ensures Runs(o, w, rows) <==> NoneStuck(o, w, rows)
  {
    hide NamesOf, NoDups, RenamedBy, Moved, IsNew, IsOld, StepOk, Stuck, Accessible, Taken;
    if rows != [] {
      var init, row := rows[..|rows| - 1], rows[|rows| - 1];
      assert forall r :: r in rows <==> r in init || r == row;
      LastRowApart(rows);
      PlanRuns(o, w, init);
      if Runs(o, w, init) {
        RunRenames(o, w, init);
        StuckNow(o, w, Executed(o, w, init), init, row);
      }
    }
  }

  lemma StuckNow(o: Outside, w: World, v: World, init: seq<Row>, row: Row)
    requires RenamedBy(o, w, v, init)
    requires row.Renames() ==>
      && Here(row.before) in w && !o.refused(row)
      && !IsNew(o, init, PlaceOf(o, row.after)) && !IsNew(o, init, Here(row.before)) && !IsOld(init, Here(row.before))
    ensures (row.Renames() ==> StepOk(o, v, row)) <==> !Stuck(o, w, init, row)
  {
    hide IsNew, IsOld;
  }

  /** Without slashes: if and only if no directory is renamed to the name of a dangling link. */
  lemma PlanRunsSlashFree(o: Outside, w: World, rows: seq<Row>)
    requires Good(o, w, rows) && SlashFree(rows)
    ensures Runs(o, w, rows) <==>
      forall row :: row in rows && row.Renames() && Here(row.after) in w ==> !w[Here(row.before)].Directory?
  {
    hide Good;
    SlashFreeDistinct(o, rows) by { GoodNames(o, w, rows); }
    PlanRuns(o, w, rows);
    SlashFreeStuck(o, w, rows);
  }

  lemma {:induction false} SlashFreeStuck(o: Outside, w: World, rows: seq<Row>)
    requires Good(o, w, rows) && SlashFree(rows)
    ensures NoneStuck(o, w, rows) <==>
      forall row :: row in rows && row.Renames() && Here(row.after) in w ==> !w[Here(row.before)].Directory?
  {
    hide NamesOf, NoDups;
    if rows != [] {
      var init, row := rows[..|rows| - 1], rows[|rows| - 1];
      assert forall r :: r in rows <==> r in init || r == row;
      LastRowApart(rows);
      SlashFreeStuck(o, w, init);
    }
  }

  /** Renaming "a" to "b" passes the check and loses the link "b". */
  lemma PlanLosesLink()
    ensures var w := map[Here("a") := File(1), Here("b") := DanglingLink(2)];
      var o := Outside(_ => false, _ => There(""), _ => false);
      var rows := [Row("a", "b")];
      && Good(o, w, rows) && Runs(o, w, rows) && SomeRename(rows)
      && Executed(o, w, rows) == map[Here("b") := File(1)]
  {
    var w := map[Here("a") := File(1), Here("b") := DanglingLink(2)];
    var rows := [Row("a", "b")];
    assert rows[..0] == [] && rows[0] in rows && NamesOf(rows) == ["a", "b"];
  }

  /** And "./b", which is not found in the list of names, can stand for "b": this plan passes
      the check, too, and ends after its first rename. */
  lemma TwoSpellingsCollide()
    ensures var w := map[Here("a") := File(1), Here("c") := File(2)];
      var o := Outside(_ => false, _ => Here("b"), _ => false);
      var rows := [Row("a", "./b"), Row("c", "b")];
      && Good(o, w, rows) && SomeRename(rows)
      && !Runs(o, w, rows) && Runs(o, w, rows[..1])
  {
    var w := map[Here("a") := File(1), Here("c") := File(2)];
    var o := Outside(_ => false, _ => Here("b"), _ => false);
    var rows := [Row("a", "./b"), Row("c", "b")];
    assert "./b"[1] == '/';
    assert rows[..1] == [Row("a", "./b")] && rows[..1][..0] == [] && rows[0] in rows;
    assert NamesOf(rows[..1]) == ["a", "./b"] && NamesOf(rows) == NamesOf(rows[..1]) + ["c"] + ["b"];
    assert |"./b"| == 3 && |"b"| == 1 && "a"[0] == 'a' && "b"[0] == 'b' && "c"[0] == 'c';
    assert NoDups(["a", "./b", "c", "b"]) && NamesOf(rows) == ["a", "./b", "c", "b"];
    assert Executed(o, w, rows[..1]) == Moved(o, w, rows[0]);
    assert Here("b") in Executed(o, w, rows[..1]);
  }
}
