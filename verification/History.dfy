/** The Back and Forward history of a filer window (filer.c), read as one timeline. */
module History {

  const FILER_HISTORY_LIMIT := 100

  /** A window's history: both lists have the nearest entry first. */
  datatype Nav = Nav(back: seq<string>, current: string, forward: seq<string>)

  /** What happens to a window; `spring` is a temporary opening while something is dragged. */
  datatype Op = Change(path: string, spring: bool) | Back | Forward

  /** tidy_sympath */
  function Tidy(path: string): (r: string)
    ensures r <= path && (path != "" ==> r != "") && (|r| > 1 ==> r[|r| - 1] != '/')
    ensures forall i :: |r| <= i < |path| ==> path[i] == '/'
  {
    if |path| > 1 && path[|path| - 1] == '/' then Tidy(path[..|path| - 1]) else path
  }

  /** filer_history_push */
  function Pushed(list: seq<string>, path: string): seq<string> {
    if path == "" || (list != [] && list[0] == path) then list
    else if |list| + 1 <= FILER_HISTORY_LIMIT then [path] + list
    else [path] + list[..|list| - 1]
  }

  /** filer_change_to, when not called by filer_history_go */
  function Changed(n: Nav, path: string, spring: bool): Nav {
    if !spring && n.current != Tidy(path)
    then Nav(Pushed(n.back, n.current), Tidy(path), [])
    else n.(current := Tidy(path))
  }

  /** filer_history_go */
  function Gone(n: Nav, backwards: bool): Nav {
    if backwards then
      if n.back == [] then n
      else Nav(n.back[1..], Tidy(n.back[0]), Pushed(n.forward, n.current))
    else
      if n.forward == [] then n
      else Nav(Pushed(n.back, n.current), Tidy(n.forward[0]), n.forward[1..])
  }

  function Step(n: Nav, op: Op): Nav {
    match op
    case Change(path, spring) => Changed(n, path, spring)
    case Back => Gone(n, true)
    case Forward => Gone(n, false)
  }

  function Run(n: Nav, ops: seq<Op>): Nav {
    if ops == [] then n else Step(Run(n, ops[..|ops| - 1]), ops[|ops| - 1])
  }

  class FilerWindow {
    var historyBack: seq<string>
    var historyForward: seq<string>
    var symPath: string
    var historyNavigation: bool

    ghost function Abs(): Nav
      reads this
    {
      Nav(historyBack, symPath, historyForward)
    }

    /** filer_opendir, as far as the history goes */
    constructor (path: string)
      ensures Abs() == Nav([], Tidy(path), []) && !historyNavigation
    {
      historyBack, historyForward, historyNavigation := [], [], false;
      symPath := path;
      new;
      symPath := TidySympath(path);
    }

    static method TidySympath(path: string) returns (r: string)
      ensures r == Tidy(path)
    {
      r := path;
      var l := |path|;
      assert path[..l] == path;
      while l > 1 && path[l - 1] == '/'
        invariant 0 <= l <= |path| && r == path[..l] && Tidy(r) == Tidy(path)
      {
        l := l - 1;
        assert path[..l + 1][..l] == path[..l];
        r := path[..l];
      }
    }

    /** filer_history_push, onto the list for going back or the one for going forward */
    method HistoryPush(back: bool, path: string)
      modifies `historyBack, `historyForward
      ensures historyBack == if back then Pushed(old(historyBack), path) else old(historyBack)
      ensures historyForward == if back then old(historyForward) else Pushed(old(historyForward), path)
    {
      var list := if back then historyBack else historyForward;
      if path == "" { return; }
      if list != [] && list[0] == path { return; }
      list := [path] + list;
      if |list| > FILER_HISTORY_LIMIT {
        list := list[..|list| - 1];
        assert list == [path] + (if back then historyBack else historyForward)[..|list| - 1];
      }
      if back { historyBack := list; } else { historyForward := list; }
    }

    /** filer_change_to */
    method ChangeTo(path: string, spring: bool)
      modifies `historyBack, `historyForward, `symPath
      ensures Abs()
           == if historyNavigation then old(Abs()).(current := Tidy(path)) else Changed(old(Abs()), path, spring)
    {
      var newPath := TidySympath(path);
      if !historyNavigation && !spring && symPath != newPath {
        HistoryPush(true, symPath);
        historyForward := [];
      }
      symPath := newPath;
    }

    /** filer_history_go */
    method HistoryGo(backwards: bool)
      requires !historyNavigation
      modifies this
      ensures Abs() == Gone(old(Abs()), backwards) && !historyNavigation
    {
      if (if backwards then historyBack else historyForward) == [] { return; }
      var target;
      if backwards {
        target := historyBack[0];
        historyBack := historyBack[1..];
      } else {
        target := historyForward[0];
        historyForward := historyForward[1..];
      }
      HistoryPush(!backwards, symPath);
      historyNavigation := true;
      ChangeTo(target, false);
      historyNavigation := false;
    }
  }

  // ----- the timeline

  function Reversed(s: seq<string>): (r: seq<string>)
    ensures |r| == |s| && forall i :: 0 <= i < |s| ==> r[i] == s[|s| - 1 - i]
  {
    if s == [] then [] else Reversed(s[1..]) + [s[0]]
  }

  /** The pages of the window, oldest first. */
  function Timeline(n: Nav): seq<string> {
    Reversed(n.back) + [n.current] + n.forward
  }

  ghost predicate IsTidy(path: string) {
    path != "" && Tidy(path) == path
  }

  /** All entries are tidy, no two neighbours are equal, and there are not too many. */
  ghost predicate Sound(n: Nav) {
    && (forall i :: 0 <= i < |Timeline(n)| ==> IsTidy(Timeline(n)[i]))
    && (forall i :: 0 < i < |Timeline(n)| ==> Timeline(n)[i - 1] != Timeline(n)[i])
    && |n.back| + |n.forward| <= FILER_HISTORY_LIMIT
  }

  lemma {:induction false} TidyTwice(path: string)
    ensures Tidy(Tidy(path)) == Tidy(path)
    decreases |path|
  {
  }

  /** Back and Forward only move along the timeline, which stays as it is. */
  lemma GoKeeps(n: Nav, backwards: bool)
    requires Sound(n)
    ensures var m := Gone(n, backwards);
      Sound(m) && Timeline(m) == Timeline(n)
      && |m.back| == if backwards && n.back != [] then |n.back| - 1
                     else if !backwards && n.forward != [] then |n.back| + 1 else |n.back|
  {
    var t := Timeline(n);
    var at := |n.back|;
    assert t[at] == n.current;
    if backwards && n.back != [] {
      assert t[at - 1] == n.back[0];
      assert n.forward != [] ==> t[at + 1] == n.forward[0];
      var m := Gone(n, true);
      assert m.forward == [n.current] + n.forward;
      assert Timeline(m) == t;
    } else if !backwards && n.forward != [] {
      assert t[at + 1] == n.forward[0];
      assert n.back != [] ==> t[at - 1] == n.back[0];
      var m := Gone(n, false);
      assert m.back == [n.current] + n.back;
      assert Timeline(m) == t;
    }
  }

  /** Two histories with one timeline and one place in it are the same. */
  lemma SamePlace(m: Nav, n: Nav)
    requires Timeline(m) == Timeline(n) && |m.back| == |n.back|
    ensures m == n
  {
    var t, at := Timeline(n), |n.back|;
    assert t[at] == n.current && Timeline(m)[at] == m.current;
    assert t[at + 1..] == n.forward && Timeline(m)[at + 1..] == m.forward;
    forall i | 0 <= i < at ensures m.back[i] == n.back[i] {
      assert t[at - 1 - i] == n.back[i] && Timeline(m)[at - 1 - i] == m.back[i];
    }
    assert m.back == n.back;
  }

  /** Forward undoes Back and Back undoes Forward. */
  lemma GoUndone(n: Nav, backwards: bool)
    requires Sound(n) && (if backwards then n.back else n.forward) != []
    ensures Gone(Gone(n, backwards), !backwards) == n
  {
    var m := Gone(n, backwards);
    GoKeeps(n, backwards);
    assert |Timeline(n)| == |n.back| + 1 + |n.forward| == |m.back| + 1 + |m.forward|;
    GoKeeps(m, !backwards);
    SamePlace(Gone(m, !backwards), n);
  }

  /** Any number of moves up and down the timeline comes to the page its length says. */
  lemma {:induction false} GoAnywhere(n: Nav, ops: seq<Op>)
    requires Sound(n) && forall i :: 0 <= i < |ops| ==> ops[i] == Back || ops[i] == Forward
    ensures Sound(Run(n, ops)) && Timeline(Run(n, ops)) == Timeline(n)
    ensures Run(n, ops).current == Timeline(n)[|Run(n, ops).back|]
  {
    if ops != [] {
      var m := Run(n, ops[..|ops| - 1]);
      GoAnywhere(n, ops[..|ops| - 1]);
      GoKeeps(m, ops[|ops| - 1].Back?);
    }
    var r := Run(n, ops);
    assert Timeline(r)[|r.back|] == r.current;
  }

  /** A new page cuts off what was ahead and comes at the end; the oldest page is dropped when
      there are a hundred before this one. */
  lemma ChangeKeeps(n: Nav, path: string)
    requires Sound(n) && path != ""
    ensures var m := Changed(n, path, false);
      && Sound(m)
      && (n.current == Tidy(path) ==> m == n)
      && (n.current != Tidy(path) ==>
        Timeline(m) == Timeline(n)[if |n.back| == 100 then 1 else 0..|n.back| + 1] + [Tidy(path)])
  {
    hide Tidy;
    TidyTwice(path);
    if n.current != Tidy(path) {
      ChangeCuts(n, path);
      var t, m := Timeline(n), Changed(n, path, false);
      var from := if |n.back| == FILER_HISTORY_LIMIT then 1 else 0;
      assert t[|n.back|] == n.current;
      forall i | 0 <= i < |Timeline(m)| - 1 ensures Timeline(m)[i] == t[i + from] {
      }
      SoundFrom(t, m, from);
    }
  }

  lemma ChangeCuts(n: Nav, path: string)
    requires Sound(n) && n.current != Tidy(path)
    ensures var m := Changed(n, path, false);
      && m.back == ([n.current] + n.back)
                   [..if |n.back| < FILER_HISTORY_LIMIT then |n.back| + 1 else FILER_HISTORY_LIMIT]
      && Timeline(m) == Timeline(n)[if |n.back| == FILER_HISTORY_LIMIT then 1 else 0..|n.back| + 1] + [Tidy(path)]
  {
    hide Tidy;
    var t, at := Timeline(n), |n.back|;
    assert t[at] == n.current && IsTidy(t[at]);
    assert n.back != [] ==> t[at - 1] == n.back[0];
  }

  lemma SoundFrom(t: seq<string>, m: Nav, from: nat)
    requires m.forward == [] && |m.back| <= FILER_HISTORY_LIMIT && IsTidy(m.current) && |t| >= |m.back| + from
    requires forall i :: 0 <= i < |Timeline(m)| - 1 ==> Timeline(m)[i] == t[i + from]
    requires m.back != [] && t[|m.back| - 1 + from] != m.current
    requires forall i :: 0 <= i < |t| ==> IsTidy(t[i])
    requires forall i :: 0 < i < |t| ==> t[i - 1] != t[i]
    ensures Sound(m)
  {
  }

  /** In every run without spring-loaded openings the history stays sound. */
  lemma {:induction false} RunSound(path: string, ops: seq<Op>)
    requires path != "" && forall i :: 0 <= i < |ops| ==> ops[i].Change? ==> !ops[i].spring && ops[i].path != ""
    ensures Sound(Run(Nav([], Tidy(path), []), ops))
  {
    var start := Nav([], Tidy(path), []);
    if ops == [] {
      TidyTwice(path);
      assert Timeline(start) == [Tidy(path)];
    } else {
      var op := ops[|ops| - 1];
      RunSound(path, ops[..|ops| - 1]);
      var n := Run(start, ops[..|ops| - 1]);
      match op
      case Change(p, _) => ChangeKeeps(n, p);
      case _ => GoKeeps(n, op.Back?);
    }
  }

  /** No entry of the list is followed by the same again. */
  ghost predicate NoStutter(list: seq<string>) {
    forall i :: 0 < i < |list| ==> list[i - 1] != list[i]
  }

  /** In every run, with or without spring-loaded openings, Back and Forward together hold at
      most a hundred pages: so going back or forward never drops one; and neither list holds the
      same page twice in a row. */
  lemma {:induction false} RunBounded(path: string, ops: seq<Op>)
    ensures var n := Run(Nav([], Tidy(path), []), ops);
      && |n.back| + |n.forward| <= 100 && NoStutter(n.back) && NoStutter(n.forward)
      && (n.back != [] ==> Pushed(n.forward, n.current) in {n.forward, [n.current] + n.forward})
      && (n.forward != [] ==> Pushed(n.back, n.current) in {n.back, [n.current] + n.back})
  {
    hide Tidy;
    if ops != [] { RunBounded(path, ops[..|ops| - 1]); }
  }

  /** A spring-loaded opening changes the page in place.  It keeps the history sound if and
      only if the new page is neither the one before nor the one after. */
  lemma SpringKeepsIff(n: Nav, path: string)
    requires Sound(n) && path != ""
    ensures Sound(Changed(n, path, true)) <==>
      (n.back != [] ==> n.back[0] != Tidy(path)) && (n.forward != [] ==> n.forward[0] != Tidy(path))
  {
    TidyTwice(path);
    var m := Changed(n, path, true);
    var t, at := Timeline(m), |n.back|;
    assert t == Timeline(n)[at := Tidy(path)];
    assert t[at] == Tidy(path);
    assert n.back != [] ==> t[at - 1] == n.back[0];
    assert n.forward != [] ==> t[at + 1] == n.forward[0];
  }

  /** Then Back stays on the page and Forward does not bring the old page back. */
  lemma SpringSpoilsBack()
    ensures var n := Run(Nav([], "/a", []), [Change("/b", false), Change("/a/", true), Back]);
      n == Nav([], "/a", ["/a"])
  {
    var s := [Change("/b", false), Change("/a/", true), Back];
    assert s[..2] == [Change("/b", false), Change("/a/", true)] && s[..2][..1] == [Change("/b", false)];
    assert s[..2][..1][..0] == [];
    assert Tidy("/b") == "/b" && Tidy("/a") == "/a";
    assert "/a/"[..2] == "/a";
    assert Tidy("/a/") == "/a";
    var one := Run(Nav([], "/a", []), [Change("/b", false)]);
    assert one == Nav(["/a"], "/b", []);
    assert Run(Nav([], "/a", []), s[..2]) == Nav(["/a"], "/a", []);
  }
}
