/** The world of one action.c child process: the file system, the options its parent can
    toggle while it works, and the bytes the parent has sent. */
module ActionWorld {
  import opened Basics
  import opened FileTree

  datatype Policy = Ask | ReplaceAll | SkipExisting | UpdateNewer

  /** How a system call that removes a node ends. */
  datatype Outcome = Done | NoEntry | Failed

  /** What is left to chance even when nothing fails: the order in which a directory is listed,
      where nothing can be created, and the time a copied link gets. */
  datatype Chance = Chance(
    order: (Path, set<Name>) -> seq<Name>, unwritable: Path -> bool, clock: Path -> int)

  /** The names are those of the set, each once. */
  predicate Lists(names: seq<Name>, s: set<Name>) {
    (forall i, j :: 0 <= i < j < |names| ==> names[i] != names[j]) && (set n | n in names) == s
  }

  lemma ListsMore(names: seq<Name>, s: set<Name>, n: Name)
    requires Lists(names, s) && n !in s
    ensures Lists(names + [n], s + {n})
  {
    assert forall m :: m in names + [n] <==> m in names || m == n;
    assert forall m :: m in s <==> m in (set x | x in names);
  }

  lemma ListsNext(names: seq<Name>, s: set<Name>)
    requires Lists(names, s)
    ensures names == [] <==> s == {}
    ensures names != [] ==> names[0] in s && Lists(names[1..], s - {names[0]})
  {
    if names != [] {
      assert names[0] in (set n | n in names) && names[0] in s;
      forall m ensures m in s - {names[0]} <==> m in (set n | n in names[1..]) {
        assert m in s <==> m in (set n | n in names);
        if m in s && m != names[0] {
          var i :| 0 <= i < |names| && names[i] == m;
          assert names[1..][i - 1] == m;
        }
      }
    }
  }

  lemma NextName(names: seq<Name>, i: nat, todo: set<Name>)
    requires i < |names| && Lists(names[i..], todo)
    ensures names[i] in todo && Lists(names[i + 1..], todo - {names[i]})
  {
    ListsNext(names[i..], todo);
    assert names[i..][0] == names[i] && names[i..][1..] == names[i + 1..];
  }

  /** The options the parent can toggle. */
  datatype Options = Options(
    quiet: bool, force: bool, recurse: bool, brief: bool, merge: bool, newer: bool, ignore: bool)

  /** The options and the unread bytes once some have been read, and whether the process has
      given up on its parent. */
  datatype Input = Input(options: Options, rest: seq<char>, gone: bool)

  datatype Answer = Yes | No | All | Skip | Gone

  /** What follows the next end of line. */
  function AfterLine(s: seq<char>): (r: Option<seq<char>>)
    ensures r.Some? ==> |r.value| < |s|
  {
    if s == [] then None else if s[0] == '\n' then Some(s[1..]) else AfterLine(s[1..])
  }

  /** A byte that is not a reply toggles an option, or announces a line of text. */
  function Toggled(o: Options, flag: char, s: seq<char>): (x: Input)
    ensures |x.rest| <= |s|
  {
    match flag
    case 'Q' => Input(o.(quiet := !o.quiet), s, false)
    case 'F' => Input(o.(force := !o.force), s, false)
    case 'R' => Input(o.(recurse := !o.recurse), s, false)
    case 'B' => Input(o.(brief := !o.brief), s, false)
    case 'M' => Input(o.(merge := !o.merge), s, false)
    case 'W' => Input(o.(newer := !o.newer), s, false)
    case 'I' => Input(o.(ignore := !o.ignore), s, false)
    case 'E' => if AfterLine(s) == None then Input(o, [], true) else Input(o, AfterLine(s).value, false)
    case _ => Input(o, s, false)
  }

  /** The first `n` toggles. */
  function Flags(o: Options, s: seq<char>, n: nat): (x: Input)
    ensures |x.rest| <= |s|
    decreases n
  {
    if n == 0 || s == [] then Input(o, s, false)
    else
      var x := Toggled(o, s[0], s[1..]);
      if x.gone then x else Flags(x.options, x.rest, n - 1)
  }

  /** The first byte that answers, with the toggles before it; only a conflict can be answered
      for all later ones. */
  function ReadAnswer(o: Options, s: seq<char>, conflict: bool): (r: (Answer, Input))
    ensures |r.1.rest| <= |s| && (r.0 == Gone <==> r.1.gone)
    ensures !conflict ==> r.0 != All && r.0 != Skip
    decreases |s|
  {
    if s == [] then (Gone, Input(o, [], true))
    else if s[0] == 'Y' then (Yes, Input(o, s[1..], false))
    else if s[0] == 'N' then (No, Input(o, s[1..], false))
    else if conflict && s[0] == 'A' then (All, Input(o, s[1..], false))
    else if conflict && s[0] == 'S' then (Skip, Input(o, s[1..], false))
    else
      var x := Toggled(o, s[0], s[1..]);
      if x.gone then (Gone, x) else ReadAnswer(x.options, x.rest, conflict)
  }

  /** What happens in the course of an action, apart from what the tree itself shows. */
  datatype Event =
    | Reached(path: Path)    // the procedure looks at the entry, and the parent is there
    | Weighed(path: Path, options: Options, asked: bool)
                             // with these options the user is asked about the entry, or is not
    | Agreed(path: Path, all: bool)
                             // the user says yes, to this entry or to all conflicts from here on
    | Refused(path: Path)    // the user says no, now or to all
    | Unread(path: Path)     // lstat(2) fails although the entry is there
    | Unlisted(path: Path)   // opendir(3) fails
    | Denied(path: Path)     // the removal of the entry is denied
    | Uncreated(path: Path)  // a file, link or directory cannot be created there
    | Died(path: Path)       // the parent is found to be gone, at the entry
  {
    /** Nothing has failed. */
    predicate Peaceful() {
      Reached? || Refused? || Died? || Goes()
    }

    /** It does not keep the procedure from going on. */
    predicate Goes() {
      Weighed? || Agreed?
    }
  }

  /** What happened was about entries at or below `root`. */
  ghost predicate AllAt(root: Path, es: seq<Event>) {
    forall e :: e in es ==> Under(root, e.path)
  }

  /** The parent has died. */
  ghost predicate Dead(es: seq<Event>) {
    exists p :: Died(p) in es
  }

  class World {
    var fs: FS
    var policy: Policy           // conflict_policy
    var actionLeaf: Option<Name> // action_leaf
    var options: Options         // quiet and the o_* flags
    var replies: seq<char>       // sent by the parent, not read yet
    var exited: bool             // the process has given up on its parent

    ghost var refused: set<Path>  // history: the entries the user has said no to
    ghost var events: seq<Event>  // history: what has happened

    /** Whether system calls may fail although their arguments are in order, and the parent
        may die. */
    const faults: bool

    /** The paths that access(2) says this process may not write. */
    const protected: set<Path>

    const chance: Chance

    constructor (fs: FS, policy: Policy, leaf: Option<Name>, options: Options, replies: seq<char>,
                 faults: bool, protected: set<Path>, chance: Chance)
      ensures this.fs == fs && this.policy == policy && actionLeaf == leaf
      ensures this.options == options && this.replies == replies && this.chance == chance
      ensures this.faults == faults && this.protected == protected
      ensures !exited && refused == {} && events == []
    {
      this.fs, this.policy, actionLeaf, this.options, this.replies := fs, policy, leaf, options, replies;
      this.faults, this.protected, this.chance := faults, protected, chance;
      exited, refused, events := false, {}, [];
    }

    /** make_dest_path */
    function MakeDestPath(path: Path, dest: Path): (r: Path)
      requires path != []
      reads this`actionLeaf
      ensures r != [] && Parent(r) == dest
      ensures Leaf(r) == if actionLeaf.Some? then actionLeaf.value else Leaf(path)
    {
      Child(dest, match actionLeaf case Some(leaf) => leaf case None => Leaf(path))
    }

    function InputNow(): Input
      reads this
    {
      Input(options, replies, exited)
    }

    /** process_flag */
    method ProcessFlag(flag: char)
      requires !exited
      modifies `options, `replies, `exited
      ensures InputNow() == Toggled(old(options), flag, old(replies))
    {
      match flag
      case 'Q' => options := options.(quiet := !options.quiet);
      case 'F' => options := options.(force := !options.force);
      case 'R' => options := options.(recurse := !options.recurse);
      case 'B' => options := options.(brief := !options.brief);
      case 'M' => options := options.(merge := !options.merge);
      case 'W' => options := options.(newer := !options.newer);
      case 'I' => options := options.(ignore := !options.ignore);
      case 'E' => ReadNewEntryText();
      case _ =>
    }

    /** read_new_entry_text: up to the end of the line. */
    method ReadNewEntryText()
      requires !exited
      modifies `replies, `exited
      ensures match AfterLine(old(replies)) case None => exited && replies == [] case Some(r) => !exited && replies == r
    {
      while replies != [] && replies[0] != '\n'
        invariant AfterLine(replies) == AfterLine(old(replies)) && !exited
      {
        replies := replies[1..];
      }
      if replies == [] { exited := true; } else { replies := replies[1..]; }
    }

    /** check_flags: read what has arrived so far, however much that is.  Only a parent that
        has died makes it give up, about `path`. */
    method CheckFlags(ghost path: Path) returns (ghost n: nat)
      requires !exited
      modifies `options, `replies, `exited, `events
      ensures events == old(events) + [if exited then Died(path) else Reached(path)]
      ensures var x := Flags(old(options), old(replies), n);
        InputNow() == x || (faults && x.rest == [] && InputNow() == x.(gone := true))
    {
      hide Toggled;
      n := 0;
      var arrived := *;
      while arrived && !exited
        invariant events == old(events)
        invariant var x := Flags(old(options), old(replies), n);
          InputNow() == x || (faults && x.rest == [] && InputNow() == x.(gone := true) && !arrived)
        decreases if arrived then 1 else 0, |replies|
      {
        if replies == [] {
          if faults { exited := true; }
          arrived := false;
        } else {
          FlagsNext(old(options), old(replies), n);
          n := n + 1;
          var flag := replies[0];
          replies := replies[1..];
          ProcessFlag(flag);
          arrived := *;
        }
      }
      events := events + [if exited then Died(path) else Reached(path)];
    }

    /** printf_reply about `path`; a parent that is gone ends the process. */
    method Reply(ignoreQuiet: bool, ghost path: Path) returns (yes: bool)
      requires !exited
      modifies `options, `replies, `exited, `refused, `events
      ensures var (answer, x) := ReadAnswer(old(options), old(replies), false);
        if old(options.quiet) && !ignoreQuiet
        then yes && InputNow() == old(InputNow()) && events == old(events) + [Weighed(path, old(options), false)]
        else (yes <==> answer == Yes) && InputNow() == x
             && events == old(events) + Answered(old(options), answer, path)
      ensures refused == if yes || exited then old(refused) else old(refused) + {path}
    {
      if options.quiet && !ignoreQuiet {
        Weigh(path, false);
        return true;
      }
      Weigh(path, true);
      while replies != [] && !exited
        invariant ReadAnswer(old(options), old(replies), false)
          == if exited then (Gone, InputNow()) else ReadAnswer(options, replies, false)
        invariant refused == old(refused) && events == old(events) + [Weighed(path, old(options), true)]
        decreases |replies|, !exited
      {
        var c := replies[0];
        replies := replies[1..];
        if c == 'Y' {
          Agree(path, false);
          return true;
        }
        if c == 'N' { Refuse(path); return false; }
        ProcessFlag(c);
      }
      exited, events := true, events + [Died(path)];
      return false;
    }

    /** For the record: whether the user is to be asked, and the user's agreement or refusal. */
    ghost method Weigh(path: Path, asked: bool)
      modifies `events
      ensures events == old(events) + [Weighed(path, options, asked)]
    {
      events := events + [Weighed(path, options, asked)];
    }

    ghost method Agree(path: Path, all: bool)
      modifies `events
      ensures events == old(events) + [Agreed(path, all)]
    {
      events := events + [Agreed(path, all)];
    }

    ghost method Refuse(path: Path)
      modifies `refused, `events
      ensures refused == old(refused) + {path} && events == old(events) + [Refused(path)]
    {
      refused, events := refused + {path}, events + [Refused(path)];
    }

    /** printf_conflict_reply about `path`: 'A' and 'S' settle all later conflicts as well. */
    method ConflictReply(ghost path: Path) returns (yes: bool)
      requires !exited
      modifies `options, `replies, `exited, `policy, `refused, `events
      ensures old(policy) == ReplaceAll || old(policy) == SkipExisting ==>
        && (yes <==> policy == ReplaceAll) && policy == old(policy) && InputNow() == old(InputNow())
        && events == old(events) + [if yes then Weighed(path, old(options), false) else Refused(path)]
      ensures old(policy) == Ask || old(policy) == UpdateNewer ==>
        var (answer, x) := ReadAnswer(old(options), old(replies), true);
        && (yes <==> answer == Yes || answer == All) && InputNow() == x
        && events == old(events) + Answered(old(options), answer, path)
        && policy == (match answer case All => ReplaceAll case Skip => SkipExisting case _ => old(policy))
      ensures refused == if yes || exited then old(refused) else old(refused) + {path}
    {
      if policy == ReplaceAll {
        Weigh(path, false);
        return true;
      }
      if policy == SkipExisting { Refuse(path); return false; }
      Weigh(path, true);
      while replies != [] && !exited
        invariant ReadAnswer(old(options), old(replies), true)
          == if exited then (Gone, InputNow()) else ReadAnswer(options, replies, true)
        invariant policy == old(policy) && refused == old(refused)
        invariant events == old(events) + [Weighed(path, old(options), true)]
        decreases |replies|, !exited
      {
        var c := replies[0];
        replies := replies[1..];
        match c {
          case 'A' => policy := ReplaceAll; Agree(path, true); return true;
          case 'S' => policy := SkipExisting; Refuse(path); return false;
          case 'Y' => Agree(path, false); return true;
          case 'N' => Refuse(path); return false;
          case _ => ProcessFlag(c);
        }
      }
      exited, events := true, events + [Died(path)];
      return false;
    }

    /** lstat(2) */
    method Lstat(p: Path) returns (found: bool)
      modifies `events
      ensures found ==> p in fs && events == old(events)
      ensures !found ==> if p in fs then faults && events == old(events) + [Unread(p)] else events == old(events)
    {
      var denied: bool := *;
      if p in fs && faults && denied { events := events + [Unread(p)]; }
      return p in fs && !(faults && denied);
    }

    /** opendir(3) of a directory */
    method OpenDir(dir: Path) returns (ok: bool)
      modifies `events
      ensures ok ==> events == old(events)
      ensures !ok ==> faults && events == old(events) + [Unlisted(dir)]
    {
      var denied: bool := *;
      ok := !(faults && denied);
      if !ok { events := events + [Unlisted(dir)]; }
    }

    /** readdir(3), without the two dot names */
    method ReadDir(dir: Path) returns (names: seq<Name>)
      ensures Lists(names, Listing(fs, dir))
      ensures Lists(chance.order(dir, Listing(fs, dir)), Listing(fs, dir)) ==>
        names == chance.order(dir, Listing(fs, dir))
    {
      var todo := Listing(fs, dir);
      names := chance.order(dir, todo);
      if Lists(names, todo) { return; }
      names := [];
      while todo != {}
        invariant Lists(names, Listing(fs, dir) - todo) && todo <= Listing(fs, dir)
        decreases todo
      {
        var n :| n in todo;
        ListsMore(names, Listing(fs, dir) - todo, n);
        assert Listing(fs, dir) - (todo - {n}) == Listing(fs, dir) - todo + {n};
        todo := todo - {n};
        names := names + [n];
      }
    }

    /** rmdir(2), which fails on anything but an empty directory */
    method Rmdir(p: Path)
      requires WellFormed(fs) && p != []
      modifies `fs, `events
      ensures WellFormed(fs) && (fs == old(fs) || fs == old(fs) - {p})
      ensures fs != old(fs) ==> IsDir(old(fs), p) && Listing(old(fs), p) == {}
      ensures events == old(events) || events == old(events) + [Denied(p)]
      ensures !faults && IsDir(old(fs), p) && Listing(old(fs), p) == {} ==> fs == old(fs) - {p}
    {
      if IsDir(fs, p) { var outcome := Remove(p); }
    }

    /** unlink(2) of anything but a directory, rmdir(2) of a directory. */
    method Remove(p: Path) returns (outcome: Outcome)
      requires WellFormed(fs) && p != []
      modifies `fs, `events
      ensures WellFormed(fs)
      ensures events == old(events) || (faults && outcome == Failed && events == old(events) + [Denied(p)])
      ensures outcome == Failed && events == old(events) ==> IsDir(fs, p) && Listing(fs, p) != {}
      ensures outcome == Done ==> p in old(fs) && fs == old(fs) - {p}
      ensures outcome == Done && IsDir(old(fs), p) ==> Listing(old(fs), p) == {}
      ensures outcome != Done ==> fs == old(fs)
      ensures outcome == NoEntry <==> p !in old(fs)
      ensures outcome == Failed && !faults ==> IsDir(fs, p) && Listing(fs, p) != {}
    {
      if p !in fs { return NoEntry; }
      var denied: bool := *;
      if faults && denied { events := events + [Denied(p)]; return Failed; }
      if IsDir(fs, p) && Listing(fs, p) != {} { return Failed; }
      RemoveWellFormed(fs, p);
      fs := fs - {p};
      return Done;
    }

    /** `mv -f src dst` where nothing exists at dst. */
    method Mv(src: Path, dst: Path) returns (ok: bool)
      requires WellFormed(fs) && Apart(src, dst) && dst !in fs && dst != []
      modifies `fs
      ensures WellFormed(fs)
      ensures forall p :: p in old(fs) ==> !Under(dst, p)
      ensures ok ==> src in old(fs) && IsDir(old(fs), Parent(dst)) && fs == Renamed(old(fs), src, dst)
      ensures !ok ==> fs == old(fs)
      ensures !faults && src in old(fs) && IsDir(old(fs), Parent(dst)) ==> ok
    {
      forall p | p in fs ensures !Under(dst, p) {
        if Under(dst, p) { Ancestors(fs, dst, p); }
      }
      var denied: bool := *;
      if src !in fs || !IsDir(fs, Parent(dst)) || (faults && denied) { return false; }
      RenamedWellFormed(fs, src, dst);
      fs := Renamed(fs, src, dst);
      return true;
    }
  }

  /** What a question with its answer leaves in the history. */
  function Answered(o: Options, answer: Answer, path: Path): seq<Event> {
    [Weighed(path, o, true),
     match answer
     case Yes => Agreed(path, false)
     case All => Agreed(path, true)
     case Gone => Died(path)
     case _ => Refused(path)]
  }

  /** Reading one more toggle. */
  lemma {:induction false} FlagsNext(o: Options, s: seq<char>, n: nat)
    ensures var x := Flags(o, s, n);
      !x.gone && x.rest != [] ==> Flags(o, s, n + 1) == Toggled(x.options, x.rest[0], x.rest[1..])
    decreases n
  {
    hide Toggled;
    if n > 0 && s != [] {
      var x := Toggled(o, s[0], s[1..]);
      if !x.gone { FlagsNext(x.options, x.rest, n - 1); }
    } else if s != [] {
      var x := Toggled(o, s[0], s[1..]);
      assert Flags(x.options, x.rest, 0) == Input(x.options, x.rest, false);
    }
  }

  lemma RemoveWellFormed(f: FS, p: Path)
    requires WellFormed(f) && p in f && p != [] && (IsDir(f, p) ==> Listing(f, p) == {})
    ensures WellFormed(f - {p})
  {
    forall q | q in f && q != [] && q != p
      ensures IsDir(f - {p}, Parent(q))
    {
      assert Leaf(q) in Listing(f, Parent(q));
    }
  }
}
