/** The list of recently visited directories of bookmarks.c: a doubly linked list, a pointer
    to its tail, and a hash table from paths to links. */
module Bookmarks {
  import opened Basics

  class Link {
    const data: string
    var next: Link?
    var prev: Link?

    constructor (data: string)
      ensures this.data == data && next == null && prev == null
    {
      this.data, next, prev := data, null, null;
    }
  }

  // ----- the list as a sequence of paths

  function Without(s: seq<string>, path: string): (r: seq<string>)
    ensures |r| <= |s|
  {
    if s == [] then []
    else if s[0] == path then Without(s[1..], path)
    else [s[0]] + Without(s[1..], path)
  }

  /** CLAMP(o_history_limit, 1, 200) */
  function Room(limit: int): (r: nat)
    ensures 1 <= r <= 200
  {
    Clamp(limit, 1, 200)
  }

  /** The path first, then the others without its old place and without its parent, as many
      as there is room for. */
  function Updated(s: seq<string>, path: string, parent: string, limit: int): seq<string> {
    var all := [path] + Without(Without(s, path), parent);
    all[..Least(|all|, Room(limit))]
  }

  // ----- the shape of the list

  ghost function At(ls: seq<Link>, i: int): Link? {
    if 0 <= i < |ls| then ls[i] else null
  }

  ghost predicate LinkedAt(ls: seq<Link>, i: nat)
    requires i < |ls|
    reads ls
  {
    ls[i].next == At(ls, i + 1) && ls[i].prev == At(ls, i - 1)
  }

  ghost predicate Chained(ls: seq<Link>)
    reads ls
  {
    forall i :: 0 <= i < |ls| ==> LinkedAt(ls, i)
  }

  ghost function PathsOf(ls: seq<Link>): (s: seq<string>)
    ensures |s| == |ls|
  {
    seq(|ls|, i requires 0 <= i < |ls| => ls[i].data)
  }

  /** The hash table leads from each path of the list to its link, and holds nothing else. */
  ghost predicate Hashed(ls: seq<Link>, hash: map<string, Link>) {
    && (forall l :: l in ls ==> l.data in hash && hash[l.data] == l)
    && (forall p :: p in hash ==> hash[p] in ls && hash[p].data == p)
  }

  /** g_list_delete_link, on the link at place `i` */
  method DeleteLink(list: Link, link: Link, ghost ls: seq<Link>, ghost i: nat) returns (first: Link?)
    requires Chained(ls) && NoDups(PathsOf(ls)) && i < |ls| && ls[i] == link && list == ls[0]
    modifies ls
    ensures Chained(ls[..i] + ls[i + 1..]) && first == At(ls[..i] + ls[i + 1..], 0)
    ensures link.prev == old(link.prev)
  {
    ghost var now := ls[..i] + ls[i + 1..];
    DistinctLinks(ls);
    assert LinkedAt(ls, i);
    first := list;
    if link.prev != null { link.prev.next := link.next; }
    if link.next != null { link.next.prev := link.prev; }
    if first == link { first := link.next; }
    forall j | 0 <= j < |now| ensures LinkedAt(now, j) {
      var k := if j < i then j else j + 1;
      assert old(LinkedAt(ls, k));
      assert now[j] == ls[k];
    }
  }

  lemma DistinctLinks(ls: seq<Link>)
    requires NoDups(PathsOf(ls))
    ensures forall i, j :: 0 <= i < j < |ls| ==> ls[i] != ls[j]
  {
    forall i, j | 0 <= i < j < |ls| ensures ls[i] != ls[j] {
      assert PathsOf(ls)[i] != PathsOf(ls)[j];
    }
  }

  class History {
    var history: Link?              // most recent first
    var historyTail: Link?          // oldest item
    var historyHash: map<string, Link>
    ghost var links: seq<Link>

    // Library functions: ensure_utf8 and g_path_get_dirname.
    const toUtf8: string -> string
    const dirname: string -> string

    ghost function Repr(): set<object>
      reads this
    {
      set l | l in links
    }

    /** List, tail and hash table all describe one doubly linked list without duplicates. */
    ghost predicate Valid()
      reads this, Repr()
    {
      && Chained(links) && NoDups(Paths()) && Hashed(links, historyHash)
      && history == At(links, 0) && historyTail == At(links, |links| - 1)
    }

    ghost function Paths(): (s: seq<string>)
      reads this
      ensures |s| == |links|
    {
      PathsOf(links)
    }

    constructor (toUtf8: string -> string, dirname: string -> string)
      ensures Valid() && Paths() == [] && this.toUtf8 == toUtf8 && this.dirname == dirname
    {
      history, historyTail, historyHash, links := null, null, map[], [];
      this.toUtf8, this.dirname := toUtf8, dirname;
    }

    /** history_remove */
    method HistoryRemove(path: string)
      requires Valid()
      modifies `history, `historyTail, `historyHash, `links, Repr()
      ensures Valid() && Paths() == Without(old(Paths()), path)
      ensures Repr() <= old(Repr())
    {
      hide Chained, NoDups, Hashed;
      ghost var ls := links;
      if path !in historyHash {
        NotListed(ls, historyHash, path);
        return;
      }
      var link := historyHash[path];
      ghost var i := PlaceOf(ls, historyHash, path);
      TailMoves(ls, i);
      historyHash := map p | p in historyHash && p != path :: historyHash[p];
      if historyTail == link { historyTail := link.prev; }
      history := DeleteLink(history, link, links, i);
      links := ls[..i] + ls[i + 1..];
      HashWithout(ls, old(historyHash), i);
    }

    /** g_list_length */
    method ListLength() returns (n: nat)
      requires Valid()
      ensures n == |links|
    {
      n := 0;
      var link := history;
      while link != null
        invariant n <= |links| && link == At(links, n)
        decreases |links| - n
      {
        assert LinkedAt(links, n);
        link := link.next;
        n := n + 1;
      }
    }

    /** g_list_prepend and what follows it */
    method Prepend(path: string)
      requires Valid() && path !in Paths()
      modifies `history, `historyTail, `historyHash, `links, Repr()
      ensures Valid() && Paths() == [path] + old(Paths())
      ensures fresh(Repr() - old(Repr()))
    {
      hide Hashed, NoDups, Chained;
      ghost var ls := links;
      DistinctLinks(ls);
      var link := new Link(path);
      history := LinkBefore(link, history, ls);
      links := [link] + ls;
      if historyTail == null { historyTail := history; }
      historyHash := historyHash[path := history];
      HashWith(ls, old(historyHash), link);
    }

    /** bookmarks_add_history */
    method AddHistory(path: string, limit: int)
      requires Valid()
      modifies `history, `historyTail, `historyHash, `links, Repr()
      ensures Valid() && Paths() == Updated(old(Paths()), toUtf8(path), dirname(path), limit)
      ensures fresh(Repr() - old(Repr()))
    {
      hide Chained, Hashed, NoDups;
      ghost var before := Paths();
      var converted := toUtf8(path);
      HistoryRemove(converted);
      var parent := dirname(path);
      HistoryRemove(parent);
      WithoutGone(before, converted);
      WithoutGone(Without(before, converted), parent);
      Prepend(converted);
      Trim(Room(limit));
    }

    /** The eviction loop: from the tail, until few enough are left. */
    method Trim(limit: nat)
      requires Valid() && limit >= 1
      modifies `history, `historyTail, `historyHash, `links, Repr()
      ensures Valid() && Paths() == old(Paths())[..Least(|old(Paths())|, limit)]
      ensures Repr() <= old(Repr())
    {
      hide Chained, Hashed;
      ghost var all := Paths();
      var length := ListLength();
      while length > limit
        invariant Valid() && length == |links| <= |all| && (length >= limit || length == |all|)
        invariant Paths() == all[..length]
        invariant Repr() <= old(Repr())
        decreases length
      {
        assert historyTail.data == Paths()[length - 1];
        WithoutOne(Paths(), length - 1);
        HistoryRemove(historyTail.data);
        length := ListLength();
      }
    }
  }

  /** The pointers that g_list_prepend sets. */
  method LinkBefore(link: Link, list: Link?, ghost ls: seq<Link>) returns (first: Link)
    requires Chained(ls) && list == At(ls, 0) && link !in ls && link.prev == null
    requires forall i, j :: 0 <= i < j < |ls| ==> ls[i] != ls[j]
    modifies ls, link
    ensures Chained([link] + ls) && first == link
  {
    ghost var now := [link] + ls;
    link.next := list;
    if list != null { list.prev := link; }
    first := link;
    forall j | 0 <= j < |now| ensures LinkedAt(now, j) {
      if j > 0 { assert old(LinkedAt(ls, j - 1)); }
    }
  }

  // ----- what the pieces mean for the paths

  lemma NotListed(ls: seq<Link>, hash: map<string, Link>, path: string)
    requires Hashed(ls, hash) && path !in hash
    ensures Without(PathsOf(ls), path) == PathsOf(ls)
  {
    forall i | 0 <= i < |ls| ensures PathsOf(ls)[i] != path {
      assert ls[i] in ls;
    }
    WithoutAbsent(PathsOf(ls), path);
  }

  lemma PlaceOf(ls: seq<Link>, hash: map<string, Link>, path: string) returns (i: nat)
    requires Hashed(ls, hash) && path in hash
    ensures i < |ls| && ls[i] == hash[path] && ls[i].data == path
  {
    i :| 0 <= i < |ls| && ls[i] == hash[path];
  }

  /** Without link `i`, the last link is the one before it if it was the last. */
  lemma TailMoves(ls: seq<Link>, i: nat)
    requires Chained(ls) && NoDups(PathsOf(ls)) && i < |ls|
    ensures var now := ls[..i] + ls[i + 1..];
      At(now, |now| - 1) == if At(ls, |ls| - 1) == ls[i] then ls[i].prev else At(ls, |ls| - 1)
  {
    DistinctLinks(ls);
    assert LinkedAt(ls, i);
  }

  lemma HashWithout(ls: seq<Link>, hash: map<string, Link>, i: nat)
    requires Hashed(ls, hash) && NoDups(PathsOf(ls)) && i < |ls|
    ensures var now := ls[..i] + ls[i + 1..]; var path := ls[i].data;
      && Hashed(now, map p | p in hash && p != path :: hash[p])
      && PathsOf(now) == Without(PathsOf(ls), path) && NoDups(PathsOf(now))
  {
    var now, paths := ls[..i] + ls[i + 1..], PathsOf(ls);
    WithoutOne(paths, i);
    assert PathsOf(now) == paths[..i] + paths[i + 1..];
    forall l | l in ls ensures l in now <==> l.data != ls[i].data {
      var k :| 0 <= k < |ls| && ls[k] == l;
      assert paths[k] == l.data && paths[i] == ls[i].data;
      if k < i { assert now[k] == l; } else if k > i { assert now[k - 1] == l; }
      if k == i { DistinctLinks(ls); }
    }
  }

  lemma HashWith(ls: seq<Link>, hash: map<string, Link>, link: Link)
    requires Hashed(ls, hash) && NoDups(PathsOf(ls)) && link.data !in PathsOf(ls)
    ensures Hashed([link] + ls, hash[link.data := link]) && NoDups(PathsOf([link] + ls))
    ensures PathsOf([link] + ls) == [link.data] + PathsOf(ls)
  {
    var now := [link] + ls;
    assert PathsOf(now) == [link.data] + PathsOf(ls);
    forall l | l in ls ensures l.data != link.data {
      var k :| 0 <= k < |ls| && ls[k] == l;
      assert PathsOf(ls)[k] == l.data;
    }
  }

  lemma {:induction false} WithoutAbsent(s: seq<string>, path: string)
    requires path !in s
    ensures Without(s, path) == s
  {
    if s != [] { WithoutAbsent(s[1..], path); }
  }

  lemma {:induction false} WithoutOne(s: seq<string>, i: nat)
    requires NoDups(s) && i < |s|
    ensures Without(s, s[i]) == s[..i] + s[i + 1..]
  {
    if i == 0 {
      forall j | 1 <= j < |s| ensures s[j] != s[0] { }
      WithoutAbsent(s[1..], s[0]);
    } else {
      WithoutOne(s[1..], i - 1);
      assert s[..i] == [s[0]] + s[1..][..i - 1] && s[1..][i..] == s[i + 1..];
    }
  }

  lemma {:induction false} WithoutGone(s: seq<string>, path: string)
    ensures forall q :: q in Without(s, path) <==> q in s && q != path
  {
    if s != [] { WithoutGone(s[1..], path); }
  }

  // ----- what the list means: whole runs

  datatype Visit = Visit(path: string, parent: string, limit: int)

  function Run(visits: seq<Visit>): seq<string> {
    if visits == [] then []
    else var v := visits[|visits| - 1];
         Updated(Run(visits[..|visits| - 1]), v.path, v.parent, v.limit)
  }

  /** The number of the last visit to a path, or -1. */
  function Last(visits: seq<Visit>, path: string): (t: int)
    ensures -1 <= t < |visits| && (t >= 0 ==> visits[t].path == path)
    ensures forall u :: t < u < |visits| ==> visits[u].path != path
  {
    if visits == [] then -1
    else if visits[|visits| - 1].path == path then |visits| - 1
    else Last(visits[..|visits| - 1], path)
  }

  /** The path was visited, and no directory inside it since. */
  ghost predicate Current(visits: seq<Visit>, path: string) {
    Last(visits, path) >= 0 && forall u :: Last(visits, path) < u < |visits| ==> visits[u].parent != path
  }

  ghost predicate LatestFirst(visits: seq<Visit>, s: seq<string>) {
    forall i, j :: 0 <= i < j < |s| ==> Last(visits, s[i]) > Last(visits, s[j])
  }

  lemma {:induction false} WithoutLatestFirst(visits: seq<Visit>, s: seq<string>, path: string)
    requires LatestFirst(visits, s)
    ensures LatestFirst(visits, Without(s, path))
  {
    if s != [] {
      forall i, j | 0 <= i < j < |s[1..]| ensures Last(visits, s[1..][i]) > Last(visits, s[1..][j]) {
        assert s[1..][i] == s[i + 1] && s[1..][j] == s[j + 1];
      }
      WithoutLatestFirst(visits, s[1..], path);
      WithoutGone(s[1..], path);
      var w := Without(s[1..], path);
      forall j | 0 <= j < |w| ensures Last(visits, s[0]) > Last(visits, w[j]) {
        assert w[j] in s[1..];
      }
    }
  }

  /** After every run of visits the list holds only paths that were visited, and into which no
      visit has gone since; the latest visit comes first; and there are no more than the limit
      of the last visit allows, nor than 200, though one at least. */
  lemma {:induction false} RunLatestFirst(visits: seq<Visit>)
    ensures LatestFirst(visits, Run(visits)) && forall q :: q in Run(visits) ==> Current(visits, q)
    ensures |Run(visits)| <= 200
    ensures visits != [] ==> |Run(visits)| <= if visits[|visits| - 1].limit < 1 then 1 else visits[|visits| - 1].limit
    ensures visits != [] ==> Run(visits) != [] && Run(visits)[0] == visits[|visits| - 1].path
  {
    hide Current;
    if visits != [] {
      var before, v := visits[..|visits| - 1], visits[|visits| - 1];
      RunLatestFirst(before);
      var s := Run(before);
      var kept := Without(Without(s, v.path), v.parent);
      WithoutLatestFirst(before, s, v.path);
      WithoutLatestFirst(before, Without(s, v.path), v.parent);
      WithoutGone(s, v.path);
      WithoutGone(Without(s, v.path), v.parent);
      forall q | q in kept ensures Last(visits, q) == Last(before, q) < |visits| - 1 && Current(visits, q) {
        StillCurrent(visits, q);
        LastBefore(before, q);
      }
      VisitedNow(visits);
      AddedLatestFirst(before, visits, v.path, kept);
    }
  }

  lemma StillCurrent(visits: seq<Visit>, q: string)
    requires visits != [] && Current(visits[..|visits| - 1], q)
    requires q != visits[|visits| - 1].path && q != visits[|visits| - 1].parent
    ensures Last(visits, q) == Last(visits[..|visits| - 1], q) && Current(visits, q)
  {
    forall u | Last(visits, q) < u < |visits| ensures visits[u].parent != q {
      if u < |visits| - 1 { assert visits[..|visits| - 1][u] == visits[u]; }
    }
  }

  lemma AddedLatestFirst(before: seq<Visit>, visits: seq<Visit>, path: string, kept: seq<string>)
    requires LatestFirst(before, kept)
    requires forall q :: q in kept ==> Last(visits, q) == Last(before, q) < Last(visits, path)
    ensures LatestFirst(visits, [path] + kept)
  {
  }

  lemma VisitedNow(visits: seq<Visit>)
    requires visits != []
    ensures Last(visits, visits[|visits| - 1].path) == |visits| - 1 && Current(visits, visits[|visits| - 1].path)
  {
  }

  lemma LastBefore(visits: seq<Visit>, path: string)
    ensures Last(visits, path) < |visits|
  {
  }

  /** Nothing is lost while there is room: a path is on the list as long as no visit has gone
      into it since and there have been fewer visits since than entries are allowed. */
  lemma {:induction false} RecentKept(visits: seq<Visit>, path: string)
    requires Current(visits, path)
    requires forall u :: Last(visits, path) < u < |visits| ==>
      u - Last(visits, path) < visits[u].limit && u - Last(visits, path) < 200
    ensures exists i :: 0 <= i < |visits| - Last(visits, path) && i < |Run(visits)| && Run(visits)[i] == path
  {
    hide Updated, Room;
    var n := |visits| - 1;
    var before, v := visits[..n], visits[n];
    if v.path == path {
      FirstPlace(Run(before), v);
      assert Run(visits)[0] == path;
    } else {
      var t := Last(visits, path);
      assert Last(before, path) == t;
      assert forall u :: 0 <= u < n ==> before[u] == visits[u];
      RecentKept(before, path);
      var i :| 0 <= i < n - t && i < |Run(before)| && Run(before)[i] == path;
      assert n - t < Room(v.limit) by { RoomFor(v.limit, n - t); }
      var k := UpdatedPlace(Run(before), v, i);
      assert Run(visits)[k] == path;
    }
  }

  lemma RoomFor(limit: int, n: nat)
    requires n < limit && n < 200
    ensures n < Room(limit)
  {
  }

  lemma FirstPlace(s: seq<string>, v: Visit)
    ensures var r := Updated(s, v.path, v.parent, v.limit); r != [] && r[0] == v.path
  {
  }

  /** A visit moves the other entries down by one place at most. */
  lemma UpdatedPlace(s: seq<string>, v: Visit, i: nat) returns (k: nat)
    requires i < |s| && s[i] != v.path && s[i] != v.parent
    ensures k <= i + 1
    ensures var r := Updated(s, v.path, v.parent, v.limit); i + 1 < Room(v.limit) ==> k < |r| && r[k] == s[i]
  {
    var j := WithoutPlace(s, v.path, i);
    var l := WithoutPlace(Without(s, v.path), v.parent, j);
    k := l + 1;
  }

  /** Removing another path moves an entry towards the front, if at all. */
  lemma {:induction false} WithoutPlace(s: seq<string>, path: string, i: nat) returns (j: nat)
    requires i < |s| && s[i] != path
    ensures j <= i && j < |Without(s, path)| && Without(s, path)[j] == s[i]
  {
    if i == 0 {
      j := 0;
    } else {
      var k := WithoutPlace(s[1..], path, i - 1);
      j := if s[0] == path then k else k + 1;
    }
  }
}
