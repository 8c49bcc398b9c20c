/** The search thread of rox-find.c: a depth-first walk over directories that may contain each
    other, with one table of visited directories for all roots. */
module Search {
  import opened Basics

  /** G_FILE_ATTRIBUTE_ID_FILE: two paths to one directory have the same key. */
  type Key = nat

  datatype FileType = Regular | Folder | SymbolicLink | Special

  datatype Wanted = AnyType | Files | Directories | Symlinks

  /** One entry as the enumerator delivers it.  `nameMatches` and `contentMatches` are what
      the pattern and content tests say of it. */
  datatype Entry = Entry(
    hidden: bool,
    ftype: FileType,
    isLink: bool,
    size: nat,
    nameMatches: bool,
    contentMatches: bool,
    dev: nat,
    key: Key)   // of the directory, when it is one

  /** What each directory lists; one that cannot be read lists nothing. */
  type Graph = map<Key, seq<Entry>>

  datatype Options = Options(
    hidden: bool, recursive: bool, followLinks: bool, oneFilesystem: bool,
    wanted: Wanted, minSize: nat, maxSize: nat, searchContent: bool)

  predicate TypeMatches(w: Wanted, t: FileType) {
    match w
    case Files => t == Regular
    case Directories => t == Folder
    case Symlinks => t == SymbolicLink
    case AnyType => true
  }

  predicate Matches(o: Options, e: Entry) {
    && TypeMatches(o.wanted, e.ftype)
    && e.size >= o.minSize && (o.maxSize == 0 || e.size <= o.maxSize)
    && e.nameMatches
    && (o.searchContent ==> e.ftype == Regular && e.contentMatches)
  }

  /** The entry is reported. */
  predicate Reported(o: Options, e: Entry) {
    (o.hidden || !e.hidden) && Matches(o, e)
  }

  /** The walk goes down into the entry. */
  predicate Descends(o: Options, dev: nat, e: Entry) {
    && (o.hidden || !e.hidden)
    && o.recursive && e.ftype == Folder && !(e.isLink && !o.followLinks)
    && (!o.oneFilesystem || dev == 0 || e.dev == 0 || e.dev == dev)
  }

  ghost predicate Closed(g: Graph) {
    forall k, i :: k in g && 0 <= i < |g[k]| && g[k][i].ftype == Folder ==> g[k][i].key in g
  }

  // ----- reachability

  ghost predicate Edge(g: Graph, o: Options, dev: nat, a: Key, b: Key) {
    a in g && exists i :: 0 <= i < |g[a]| && Descends(o, dev, g[a][i]) && g[a][i].key == b
  }

  ghost predicate Path(g: Graph, o: Options, dev: nat, ks: seq<Key>) {
    ks != [] && forall i :: 0 <= i < |ks| - 1 ==> Edge(g, o, dev, ks[i], ks[i + 1])
  }

  /** There is a path from `a` to `b` on which nothing is in `avoid`. */
  ghost predicate Reaches(g: Graph, o: Options, dev: nat, avoid: set<Key>, a: Key, b: Key) {
    exists ks :: Path(g, o, dev, ks) && ks[0] == a && ks[|ks| - 1] == b && forall k :: k in ks ==> k !in avoid
  }

  lemma ReachesSelf(g: Graph, o: Options, dev: nat, avoid: set<Key>, a: Key)
    requires a !in avoid
    ensures Reaches(g, o, dev, avoid, a, a)
  {
    assert Path(g, o, dev, [a]);
  }

  lemma ReachesEdge(g: Graph, o: Options, dev: nat, avoid: set<Key>, more: set<Key>, a: Key, b: Key, c: Key)
    requires a !in avoid && Edge(g, o, dev, a, b) && Reaches(g, o, dev, more, b, c) && avoid <= more
    ensures Reaches(g, o, dev, avoid, a, c)
  {
    var ks :| Path(g, o, dev, ks) && ks[0] == b && ks[|ks| - 1] == c && forall k :: k in ks ==> k !in more;
    var all := [a] + ks;
    forall i | 0 <= i < |all| - 1 ensures Edge(g, o, dev, all[i], all[i + 1]) {
      if i > 0 { assert all[i] == ks[i - 1] && all[i + 1] == ks[i]; }
    }
    assert Path(g, o, dev, all);
  }

  /** The successors of everything in `some` are in `all`. */
  ghost predicate Explored(g: Graph, o: Options, dev: nat, some: set<Key>, all: set<Key>) {
    forall a, b :: a in some && Edge(g, o, dev, a, b) ==> b in all
  }

  // ----- the walk

  /** A reported entry: the directory and the position in its listing. */
  type Result = (Key, nat)

  /** The reports for a directory whose first `n` entries have been looked at. */
  ghost predicate ReportsOf(g: Graph, o: Options, rs: seq<Result>, k: Key, n: nat) {
    k in g && forall i: nat :: (k, i) in rs <==> i < n && i < |g[k]| && Reported(o, g[k][i])
  }

  /** What a stretch of the walk may have done to the reports, cancelled or not: they have
      grown, by entries of newly visited directories that are to be reported, none twice. */
  ghost predicate Sound(g: Graph, o: Options, was: seq<Result>, now: seq<Result>, news: set<Key>) {
    && NoDups(now) && was <= now
    && forall r :: r in now ==> r in was || (r.0 in news && r.0 in g && r.1 < |g[r.0]| && Reported(o, g[r.0][r.1]))
  }

  /** The directories in `inner` are finished: reported, and their successors visited. */
  ghost predicate Finished(g: Graph, o: Options, dev: nat, rs: seq<Result>, inner: set<Key>, all: set<Key>) {
    && Explored(g, o, dev, inner, all)
    && forall v :: v in inner ==> v in g && ReportsOf(g, o, rs, v, |g[v]|)
  }

  lemma FinishedMore(g: Graph, o: Options, dev: nat, rs: seq<Result>, rs': seq<Result>,
                     inner: set<Key>, news: set<Key>, all: set<Key>, all': set<Key>)
    requires Finished(g, o, dev, rs, inner, all) && Finished(g, o, dev, rs', news, all') && all <= all'
    requires Sound(g, o, rs, rs', news) && inner !! news
    ensures Finished(g, o, dev, rs', inner + news, all')
  {
  }

  lemma ReportsKept(g: Graph, o: Options, rs: seq<Result>, rs': seq<Result>, news: set<Key>, k: Key, n: nat)
    requires ReportsOf(g, o, rs, k, n) && Sound(g, o, rs, rs', news) && k !in news
    ensures ReportsOf(g, o, rs', k, n)
  {
  }

  lemma SoundMore(g: Graph, o: Options, rs: seq<Result>, rs1: seq<Result>, rs2: seq<Result>, a: set<Key>, b: set<Key>)
    requires Sound(g, o, rs, rs1, a) && Sound(g, o, rs1, rs2, b)
    ensures Sound(g, o, rs, rs2, a + b)
  {
  }

  /** One more report. */
  lemma ReportOne(g: Graph, o: Options, rs: seq<Result>, k: Key, n: nat)
    requires ReportsOf(g, o, rs, k, n) && n < |g[k]| && NoDups(rs)
    ensures var now := if Reported(o, g[k][n]) then rs + [(k, n)] else rs;
      ReportsOf(g, o, now, k, n + 1) && Sound(g, o, rs, now, {k})
  {
  }

  lemma FewerLeft(g: Graph, was: set<Key>, now: set<Key>, k: Key)
    requires k in g && k !in was && was + {k} <= now
    ensures |g.Keys - now| < |g.Keys - was|
  {
    var a, b := g.Keys - now, g.Keys - was;
    assert b == a + (b - a) && k in b - a;
  }

  /** The directory itself is finished once its whole listing has been gone through. */
  lemma FinishedSelf(g: Graph, o: Options, dev: nat, rs: seq<Result>, k: Key, all: set<Key>)
    requires k in g && ReportsOf(g, o, rs, k, |g[k]|)
    requires forall i :: 0 <= i < |g[k]| && Descends(o, dev, g[k][i]) ==> g[k][i].key in all
    ensures Finished(g, o, dev, rs, {k}, all)
  {
  }

  class SearchJob {
    const graph: Graph
    const options: Options
    const mayCancel: bool     // whether the user may cancel
    var visited: set<Key>
    var results: seq<Result>
    var cancelled: bool

    constructor (graph: Graph, options: Options, mayCancel: bool)
      ensures this.graph == graph && this.options == options && this.mayCancel == mayCancel
      ensures visited == {} && results == [] && !cancelled
    {
      this.graph, this.options, this.mayCancel := graph, options, mayCancel;
      visited, results, cancelled := {}, [], false;
    }

    /** g_cancellable_is_cancelled; a user who may cancel can do so at any time. */
    method PollCancelled() returns (c: bool)
      modifies `cancelled
      ensures c == cancelled && (old(cancelled) ==> cancelled) && (!mayCancel ==> cancelled == old(cancelled))
    {
      var now: bool := *;
      cancelled := cancelled || (mayCancel && now);
      c := cancelled;
    }

    /** mark_directory_visited */
    method MarkVisited(k: Key) returns (isNew: bool)
      modifies `visited
      ensures isNew == (k !in old(visited)) && visited == old(visited) + {k}
    {
      if k in visited { return false; }
      visited := visited + {k};
      return true;
    }

    /** The reports are about visited directories only. */
    ghost predicate Valid()
      reads this
    {
      && Closed(graph) && visited <= graph.Keys && NoDups(results) && (cancelled ==> mayCancel)
      && forall r :: r in results ==> r.0 in visited
    }

    /** scan_directory.  It enters no directory twice, so it ends however the directories
        contain each other; when it is not cancelled it has been through everything it newly
        visited and reported exactly what is to be reported there. */
    method ScanDirectory(k: Key, dev: nat)
      requires Valid() && k in graph
      modifies this
      ensures Valid() && old(visited) <= visited && (old(cancelled) ==> cancelled)
      ensures forall v :: v in visited - old(visited) ==> Reaches(graph, options, dev, old(visited), k, v)
      ensures Sound(graph, options, old(results), results, visited - old(visited))
      ensures !cancelled ==> k in visited
      ensures !cancelled ==> Finished(graph, options, dev, results, visited - old(visited), visited)
      decreases |graph.Keys - visited|, 0
    {
      hide Finished, Reaches;
      assert visited - old(visited) == {};
      FinishedNone(graph, options, dev, results, visited);
      var stop := PollCancelled();
      if stop { return; }
      var isNew := MarkVisited(k);
      if !isNew {
        assert visited - old(visited) == {};
        FinishedNone(graph, options, dev, results, visited);
        return;
      }
      FewerLeft(graph, old(visited), visited, k);
      ScanEntries(k, dev, old(visited));
    }

    /** The state between two entries of a listing: `before` had been visited before `k`, with
        the reports `reported`, and the first `i` entries of `k` have been dealt with. */
    ghost predicate Midway(k: Key, dev: nat, before: set<Key>, reported: seq<Result>, i: nat)
      reads this
    {
      && Valid() && k in graph && k !in before && before + {k} <= visited && i <= |graph[k]|
      && (forall v :: v in visited - before ==> Reaches(graph, options, dev, before, k, v))
      && Sound(graph, options, reported, results, visited - before)
      && (!cancelled ==>
            && ReportsOf(graph, options, results, k, i)
            && Finished(graph, options, dev, results, visited - before - {k}, visited)
            && forall j :: 0 <= j < i && Descends(options, dev, graph[k][j]) ==> graph[k][j].key in visited)
    }

    /** The enumeration loop of scan_directory. */
    method ScanEntries(k: Key, dev: nat, ghost before: set<Key>)
      requires Valid() && k in graph && k !in before && visited == before + {k}
      requires forall r :: r in results ==> r.0 in before
      modifies this
      ensures Midway(k, dev, before, old(results), if cancelled then 0 else |graph[k]|)
      ensures old(cancelled) ==> cancelled
      ensures !cancelled ==> Finished(graph, options, dev, results, visited - before, visited)
      decreases |graph.Keys - visited|, 3
    {
      hide Finished, Sound, ReportsOf, Reaches, Descends, NoDups;
      ghost var reported, start := results, visited;
      StartListing(graph, options, dev, results, k, before, visited);
      var i := 0;
      var stop := PollCancelled();
      while !stop && i < |graph[k]|
        invariant 0 <= i <= |graph[k]| && start <= visited
        invariant stop ==> cancelled
        invariant old(cancelled) ==> cancelled
        invariant Midway(k, dev, before, reported, if cancelled then 0 else i)
        decreases |graph[k]| - i
      {
        if cancelled { stop := true; break; }
        NoMoreLeft(graph, start, visited);
        Look(k, dev, i, before, reported);
        i := i + 1;
        stop := PollCancelled();
      }
      if !cancelled { AllDealtWith(k, dev, before, reported); }
    }

    /** When all entries have been dealt with, everything newly visited is finished. */
    lemma AllDealtWith(k: Key, dev: nat, before: set<Key>, reported: seq<Result>)
      requires k in graph && Midway(k, dev, before, reported, |graph[k]|) && !cancelled
      ensures Finished(graph, options, dev, results, visited - before, visited)
    {
      hide Finished, Sound, ReportsOf, Reaches, Descends, NoDups;
      FinishedSelf(graph, options, dev, results, k, visited);
      FinishedUnion(graph, options, dev, results, visited - before - {k}, {k}, visited);
      assert visited - before - {k} + {k} == visited - before;
    }

    /** The body of that loop for entry `i`. */
    method Look(k: Key, dev: nat, i: nat, ghost before: set<Key>, ghost reported: seq<Result>)
      requires Midway(k, dev, before, reported, i) && !cancelled && i < |graph[k]|
      modifies this
      ensures Midway(k, dev, before, reported, if cancelled then 0 else i + 1)
      ensures old(visited) <= visited && (old(cancelled) ==> cancelled)
      decreases |graph.Keys - visited|, 2
    {
      hide Finished, Sound, ReportsOf, Reaches, Edge, Explored;
      var e := graph[k][i];
      ghost var rs, all := results, visited;
      ReportOne(graph, options, results, k, i);
      if !options.hidden && e.hidden {
        return;
      }
      if Matches(options, e) { results := results + [(k, i)]; }
      AfterReport(graph, options, dev, reported, rs, results, k, before, all);
      if options.recursive && e.ftype == Folder && !(e.isLink && !options.followLinks)
         && (!options.oneFilesystem || dev == 0 || e.dev == 0 || e.dev == dev)
      {
        Descend(k, dev, i, before, reported);
      }
    }

    /** Its recursive call. */
    method Descend(k: Key, dev: nat, i: nat, ghost before: set<Key>, ghost reported: seq<Result>)
      requires !cancelled && k in graph && i < |graph[k]| && Descends(options, dev, graph[k][i])
      requires Valid() && k !in before && before + {k} <= visited
      requires forall v :: v in visited - before ==> Reaches(graph, options, dev, before, k, v)
      requires Sound(graph, options, reported, results, visited - before)
      requires ReportsOf(graph, options, results, k, i + 1)
      requires Finished(graph, options, dev, results, visited - before - {k}, visited)
      requires forall j :: 0 <= j < i && Descends(options, dev, graph[k][j]) ==> graph[k][j].key in visited
      modifies this
      ensures Midway(k, dev, before, reported, if cancelled then 0 else i + 1)
      ensures old(visited) <= visited
      decreases |graph.Keys - visited|, 1
    {
      hide Finished, Sound, ReportsOf, Reaches, Matches;
      ghost var rs, all := results, visited;
      ScanDirectory(graph[k][i].key, dev);
      assert Edge(graph, options, dev, k, graph[k][i].key);
      AfterDescent(graph, options, dev, reported, rs, results, k, graph[k][i].key, before, all, visited, i, !cancelled);
    }
  }

  // ----- all roots

  /** A place to search; `info` is what the query on it gives, `key` and `dev` identify it. */
  datatype Root = Root(exists_: bool, info: Entry, dev: nat, key: Key)

  /** Device numbers are known and belong to the directories, as seen from every place. */
  ghost predicate DevicesKnown(g: Graph, roots: seq<Root>, devOf: Key -> nat) {
    && (forall k, i :: k in g && 0 <= i < |g[k]| && g[k][i].ftype == Folder ==>
          g[k][i].dev == devOf(g[k][i].key) != 0)
    && (forall i :: 0 <= i < |roots| ==> roots[i].dev == devOf(roots[i].key) != 0)
  }

  predicate Searched(r: Root) {
    r.exists_ && r.info.ftype == Folder
  }

  /** The root is searched and reaches the directory. */
  ghost predicate Leads(g: Graph, o: Options, r: Root, v: Key) {
    v in g && Searched(r) && Reaches(g, o, r.dev, {}, r.key, v)
  }

  /** The directories that some root leads to. */
  ghost function Led(g: Graph, o: Options, roots: seq<Root>): set<Key> {
    set v | v in g && exists j :: 0 <= j < |roots| && Leads(g, o, roots[j], v)
  }

  /** The directories that the search goes through: a root adds what it reaches on a path that
      avoids what has been visited before. */
  ghost function Visits(g: Graph, o: Options, roots: seq<Root>): set<Key> {
    if roots == [] then {} else Visited(g, o, Visits(g, o, roots[..|roots| - 1]), roots[|roots| - 1])
  }

  ghost function Visited(g: Graph, o: Options, was: set<Key>, r: Root): set<Key> {
    was + set v | v in g && Searched(r) && Reaches(g, o, r.dev, was, r.key, v)
  }

  /** What a scan has newly visited when it is through with all of it. */
  lemma ScanVisits(g: Graph, o: Options, rs: seq<Result>, was: set<Key>, all: set<Key>, r: Root)
    requires Closed(g) && Searched(r) && r.key in g && was <= all <= g.Keys && r.key in all
    requires forall v :: v in all - was ==> Reaches(g, o, r.dev, was, r.key, v)
    requires Explored(g, o, r.dev, all - was, all)
    ensures all == Visited(g, o, was, r)
  {
    forall v | v in g && Reaches(g, o, r.dev, was, r.key, v) ensures v in all {
      var ks :| Path(g, o, r.dev, ks) && ks[0] == r.key && ks[|ks| - 1] == v && forall k :: k in ks ==> k !in was;
      PathExplored(g, o, r.dev, was, all, ks, |ks| - 1);
    }
  }

  lemma {:induction false} PathExplored(g: Graph, o: Options, dev: nat, was: set<Key>, all: set<Key>,
                                        ks: seq<Key>, t: nat)
    requires Path(g, o, dev, ks) && ks[0] in all && t < |ks| && forall k :: k in ks ==> k !in was
    requires Explored(g, o, dev, all - was, all)
    ensures ks[t] in all
  {
    if t > 0 {
      PathExplored(g, o, dev, was, all, ks, t - 1);
      assert Edge(g, o, dev, ks[t - 1], ks[t - 1 + 1]);
    }
  }

  // ----- what the options mean

  /** What the user has asked for, one restriction after the other: the type, the sizes (0 is no
      upper bound), the name and, if contents are searched, the contents of a regular file. */
  ghost predicate Fits(o: Options, e: Entry) {
    && (o.wanted.Files? ==> e.ftype.Regular?)
    && (o.wanted.Directories? ==> e.ftype.Folder?)
    && (o.wanted.Symlinks? ==> e.ftype.SymbolicLink?)
    && o.minSize <= e.size && (o.maxSize > 0 ==> e.size <= o.maxSize)
    && e.nameMatches && (o.searchContent ==> e.ftype.Regular? && e.contentMatches)
  }

  lemma FitsIff(o: Options, e: Entry)
    ensures Matches(o, e) <==> Fits(o, e)
    ensures Reported(o, e) <==> Fits(o, e) && (e.hidden ==> o.hidden)
  {
  }

  /** Whether the user lets the search of a place on device `dev` go down into the entry: none
      but directories, only if it is recursive, hidden ones or links only if that is asked for,
      and no other device, as far as it is known, when it is to stay on one. */
  ghost predicate MayEnter(o: Options, dev: nat, e: Entry) {
    && e.ftype.Folder? && o.recursive
    && (e.hidden ==> o.hidden) && (e.isLink ==> o.followLinks)
    && (o.oneFilesystem && dev != 0 && e.dev != 0 ==> e.dev == dev)
  }

  lemma MayEnterIff(o: Options, dev: nat, e: Entry)
    ensures Descends(o, dev, e) <==> MayEnter(o, dev, e)
  {
  }

  /** The place exists and is a directory. */
  ghost predicate IsPlace(roots: seq<Root>, j: int) {
    0 <= j < |roots| && roots[j].exists_ && roots[j].info.ftype == Folder
  }

  /** One of the directories `all` lists `v` in an entry that the search of place `j` may enter. */
  ghost predicate ListedIn(g: Graph, o: Options, roots: seq<Root>, all: set<Key>, j: int, v: Key) {
    IsPlace(roots, j) && exists k, i ::
      k in all && k in g && 0 <= i < |g[k]| && MayEnter(o, roots[j].dev, g[k][i]) && g[k][i].key == v
  }

  /** Nothing is visited but the places and what may be entered from there. */
  lemma {:induction false} VisitedHow(g: Graph, o: Options, roots: seq<Root>, v: Key)
    requires v in Visits(g, o, roots)
    ensures exists j :: IsPlace(roots, j) && (roots[j].key == v || ListedIn(g, o, roots, Visits(g, o, roots), j, v))
  {
    var n := |roots| - 1;
    var init, was, r := roots[..n], Visits(g, o, roots[..n]), roots[n];
    if v in was {
      VisitedHow(g, o, init, v);
      var j :| IsPlace(init, j) && (init[j].key == v || ListedIn(g, o, init, was, j, v));
      assert init[j] == roots[j] && IsPlace(roots, j);
      if roots[j].key != v {
        var k, i :| k in was && k in g && 0 <= i < |g[k]| && MayEnter(o, init[j].dev, g[k][i]) && g[k][i].key == v;
        assert k in Visits(g, o, roots);
      }
    } else {
      assert IsPlace(roots, n);
      var ks :| Path(g, o, r.dev, ks) && ks[0] == r.key && ks[|ks| - 1] == v && forall k :: k in ks ==> k !in was;
      if |ks| > 1 { LastEdge(g, o, was, r, ks); }
    }
  }

  lemma LastEdge(g: Graph, o: Options, was: set<Key>, r: Root, ks: seq<Key>)
    requires Searched(r) && Path(g, o, r.dev, ks) && |ks| > 1 && ks[0] == r.key && forall k :: k in ks ==> k !in was
    ensures exists k, i :: k in Visited(g, o, was, r) && k in g && 0 <= i < |g[k]| && MayEnter(o, r.dev, g[k][i])
                             && g[k][i].key == ks[|ks| - 1]
  {
    var m := |ks| - 2;
    assert Edge(g, o, r.dev, ks[m], ks[m + 1]);
    var i :| 0 <= i < |g[ks[m]]| && Descends(o, r.dev, g[ks[m]][i]) && g[ks[m]][i].key == ks[m + 1];
    MayEnterIff(o, r.dev, g[ks[m]][i]);
    var init := ks[..m + 1];
    forall t | 0 <= t < |init| - 1 ensures Edge(g, o, r.dev, init[t], init[t + 1]) {
      assert Edge(g, o, r.dev, ks[t], ks[t + 1]);
    }
    assert Path(g, o, r.dev, init) && init[|init| - 1] == ks[m];
    assert Reaches(g, o, r.dev, was, r.key, ks[m]);
  }

  ghost predicate AllEntered(g: Graph, o: Options, dev: nat, v: Key, all: set<Key>) {
    v in g && forall i :: 0 <= i < |g[v]| && MayEnter(o, dev, g[v][i]) ==> g[v][i].key in all
  }

  /** Every place is visited. */
  lemma {:induction false} PlacesVisited(g: Graph, o: Options, roots: seq<Root>, j: nat)
    requires IsPlace(roots, j) && roots[j].key in g
    ensures roots[j].key in Visits(g, o, roots)
  {
    var n := |roots| - 1;
    if j < n {
      PlacesVisited(g, o, roots[..n], j);
    } else if roots[n].key !in Visits(g, o, roots[..n]) {
      ReachesSelf(g, o, roots[n].dev, Visits(g, o, roots[..n]), roots[n].key);
    }
  }

  /** And whatever is visited, everything in it has been visited that the place which it was
      visited from may enter. */
  lemma {:induction false} VisitsClosed(g: Graph, o: Options, roots: seq<Root>, v: Key)
    requires Closed(g) && v in Visits(g, o, roots)
    ensures v in g && exists j :: IsPlace(roots, j) && AllEntered(g, o, roots[j].dev, v, Visits(g, o, roots))
  {
    var n := |roots| - 1;
    var init, was, r := roots[..n], Visits(g, o, roots[..n]), roots[n];
    if v in was {
      VisitsClosed(g, o, init, v);
      var j :| IsPlace(init, j) && AllEntered(g, o, init[j].dev, v, was);
      assert init[j] == roots[j] && IsPlace(roots, j);
    } else {
      assert IsPlace(roots, n);
      forall i | 0 <= i < |g[v]| && MayEnter(o, r.dev, g[v][i]) ensures g[v][i].key in Visits(g, o, roots) {
        NextEdge(g, o, was, r, v, i);
      }
    }
  }

  lemma NextEdge(g: Graph, o: Options, was: set<Key>, r: Root, v: Key, i: nat)
    requires Closed(g) && Searched(r) && v in g && Reaches(g, o, r.dev, was, r.key, v)
    requires i < |g[v]| && MayEnter(o, r.dev, g[v][i])
    ensures g[v][i].key in Visited(g, o, was, r)
  {
    var c := g[v][i].key;
    MayEnterIff(o, r.dev, g[v][i]);
    assert Edge(g, o, r.dev, v, c);
    var ks :| Path(g, o, r.dev, ks) && ks[0] == r.key && ks[|ks| - 1] == v && forall k :: k in ks ==> k !in was;
    var more := ks + [c];
    forall t | 0 <= t < |more| - 1 ensures Edge(g, o, r.dev, more[t], more[t + 1]) {
      if t + 1 < |ks| { assert Edge(g, o, r.dev, ks[t], ks[t + 1]); }
    }
    assert Path(g, o, r.dev, more) && more[|more| - 1] == c;
    if c !in was { assert Reaches(g, o, r.dev, was, r.key, c); }
  }

  // ----- when everything is visited that a root leads to

  /** Avoiding less, a root reaches more. */
  lemma AvoidLess(g: Graph, o: Options, dev: nat, less: set<Key>, more: set<Key>, a: Key, v: Key)
    requires less <= more && Reaches(g, o, dev, more, a, v)
    ensures Reaches(g, o, dev, less, a, v)
  {
  }

  lemma LedMore(g: Graph, o: Options, roots: seq<Root>, v: Key)
    requires roots != []
    ensures var n := |roots| - 1;
      v in Led(g, o, roots) <==> v in Led(g, o, roots[..n]) || Leads(g, o, roots[n], v)
  {
    var n := |roots| - 1;
    if v in Led(g, o, roots) {
      var j :| 0 <= j <= n && Leads(g, o, roots[j], v);
      assert j < n ==> roots[..n][j] == roots[j];
    }
    if v in Led(g, o, roots[..n]) {
      var j :| 0 <= j < n && Leads(g, o, roots[..n][j], v);
      assert roots[j] == roots[..n][j];
    }
  }

  /** Nothing is visited that no root leads to. */
  lemma {:induction false} VisitsLed(g: Graph, o: Options, roots: seq<Root>)
    ensures Visits(g, o, roots) <= Led(g, o, roots)
  {
    if roots != [] {
      var init, r := roots[..|roots| - 1], roots[|roots| - 1];
      VisitsLed(g, o, init);
      forall v | v in Visits(g, o, roots) ensures v in Led(g, o, roots) {
        LedMore(g, o, roots, v);
        if v !in Visits(g, o, init) { AvoidLess(g, o, r.dev, {}, Visits(g, o, init), r.key, v); }
      }
    }
  }

  /** Everything that the roots so far lead to has been visited: then the next root leaves
      nothing out if and only if it reaches what is new on paths that avoid all that. */
  lemma NextRootIff(g: Graph, o: Options, roots: seq<Root>)
    requires roots != [] && Visits(g, o, roots[..|roots| - 1]) == Led(g, o, roots[..|roots| - 1])
    ensures Visits(g, o, roots) == Led(g, o, roots) <==> NothingBehind(g, o, roots, |roots| - 1)
  {
    hide Reaches, Led, Leads;
    var n := |roots| - 1;
    var was, r := Led(g, o, roots[..n]), roots[n];
    VisitsLed(g, o, roots);
    forall v
      ensures v in Led(g, o, roots) <==> v in was || Leads(g, o, r, v)
      ensures Leads(g, o, r, v) ==> v in g && Searched(r)
    {
      LedMore(g, o, roots, v);
      if Leads(g, o, r, v) { LeadsThere(g, o, r, v); }
    }
  }

  lemma LeadsThere(g: Graph, o: Options, r: Root, v: Key)
    requires Leads(g, o, r, v)
    ensures v in g && Searched(r)
  {
  }

  /** What root `j` leads to and no earlier one does, it reaches without passing through
      anything that an earlier one leads to. */
  ghost predicate NothingBehind(g: Graph, o: Options, roots: seq<Root>, j: nat)
    requires j < |roots|
  {
    forall v :: Leads(g, o, roots[j], v) ==>
      v in Led(g, o, roots[..j]) || Reaches(g, o, roots[j].dev, Led(g, o, roots[..j]), roots[j].key, v)
  }

  /** Every root leaves nothing out, whatever follows it. */
  ghost predicate CompleteThroughout(g: Graph, o: Options, roots: seq<Root>) {
    forall n :: 0 <= n <= |roots| ==> Visits(g, o, roots[..n]) == Led(g, o, roots[..n])
  }

  /** When the search of every root, one after the other, leaves out nothing.  The condition is
      about the graph and the roots alone. */
  lemma {:induction false} CompleteIff(g: Graph, o: Options, roots: seq<Root>)
    ensures CompleteThroughout(g, o, roots) <==> forall j :: 0 <= j < |roots| ==> NothingBehind(g, o, roots, j)
  {
    hide NothingBehind, Visits, Led;
    if roots == [] {
      assert Visits(g, o, roots) == Led(g, o, roots) by { NoRoots(g, o); }
    } else {
      var n := |roots| - 1;
      var init := roots[..n];
      CompleteIff(g, o, init);
      assert roots[..n + 1] == roots;
      assert forall m :: 0 <= m <= n ==> init[..m] == roots[..m];
      forall j | 0 <= j < n ensures NothingBehind(g, o, init, j) <==> NothingBehind(g, o, roots, j) {
        BehindSame(g, o, roots, n, j);
      }
      if CompleteThroughout(g, o, init) {
        assert Visits(g, o, init[..n]) == Led(g, o, init[..n]) && init[..n] == init;
        NextRootIff(g, o, roots);
      }
    }
  }

  lemma NoRoots(g: Graph, o: Options)
    ensures Visits(g, o, []) == Led(g, o, []) == {}
  {
  }

  lemma BehindSame(g: Graph, o: Options, roots: seq<Root>, n: nat, j: nat)
    requires j < n <= |roots|
    ensures NothingBehind(g, o, roots[..n], j) <==> NothingBehind(g, o, roots, j)
  {
    assert roots[..n][..j] == roots[..j];
  }

  /** In particular the first root leaves nothing out, whatever follows. */
  lemma FirstRootComplete(g: Graph, o: Options, roots: seq<Root>, v: Key)
    requires roots != [] && Leads(g, o, roots[0], v)
    ensures v in Visits(g, o, roots)
  {
    NoRoots(g, o);
    assert roots[..1][..0] == [] && roots[..1][0] == roots[0];
    assert Visits(g, o, roots[..1]) == Visited(g, o, {}, roots[0]);
    VisitsGrow(g, o, roots, 1);
  }

  lemma {:induction false} VisitsGrow(g: Graph, o: Options, roots: seq<Root>, n: nat)
    requires n <= |roots|
    ensures Visits(g, o, roots[..n]) <= Visits(g, o, roots)
  {
    hide Visited;
    if n == |roots| {
      assert roots[..n] == roots;
    } else {
      var init := roots[..|roots| - 1];
      VisitsGrow(g, o, init, n);
      assert init[..n] == roots[..n];
      VisitedGrows(g, o, Visits(g, o, init), roots[|roots| - 1]);
    }
  }

  lemma VisitedGrows(g: Graph, o: Options, was: set<Key>, r: Root)
    ensures was <= Visited(g, o, was, r)
  {
  }

  /** Where two roots lead to one directory, the later one goes down into no entry of it that
      the earlier one does not go down into. */
  ghost predicate Alike(g: Graph, o: Options, roots: seq<Root>) {
    forall i, j, v :: 0 <= i < j < |roots| && Leads(g, o, roots[i], v) && Leads(g, o, roots[j], v) ==>
      forall n :: 0 <= n < |g[v]| && Descends(o, roots[j].dev, g[v][n]) ==> Descends(o, roots[i].dev, g[v][n])
  }

  /** All places searched are on one device, known or not. */
  ghost predicate OneDevice(roots: seq<Root>) {
    forall i, j :: 0 <= i < j < |roots| && Searched(roots[i]) && Searched(roots[j]) ==> roots[i].dev == roots[j].dev
  }

  /** So nothing is left out when the search may leave the file system, when all roots are on
      one device, and when all device numbers are known. */
  lemma WhenAlike(g: Graph, o: Options, roots: seq<Root>, devOf: Key -> nat)
    requires Closed(g) && forall i :: 0 <= i < |roots| && Searched(roots[i]) ==> roots[i].key in g
    requires o.oneFilesystem ==> OneDevice(roots) || DevicesKnown(g, roots, devOf)
    ensures CompleteThroughout(g, o, roots) && Visits(g, o, roots) == Led(g, o, roots)
  {
    hide CompleteThroughout, Leads;
    assert Alike(g, o, roots) by {
      forall i, j, v | 0 <= i < j < |roots| && Leads(g, o, roots[i], v) && Leads(g, o, roots[j], v)
        ensures o.oneFilesystem ==> roots[i].dev == roots[j].dev
      {
        LeadsThere(g, o, roots[i], v);
        LeadsThere(g, o, roots[j], v);
        if o.oneFilesystem && !OneDevice(roots) {
          DeviceOf(g, o, devOf, roots[i], v);
          DeviceOf(g, o, devOf, roots[j], v);
        }
      }
    }
    AlikeComplete(g, o, roots);
    CompleteInTheEnd(g, o, roots);
  }

  lemma CompleteInTheEnd(g: Graph, o: Options, roots: seq<Root>)
    requires CompleteThroughout(g, o, roots)
    ensures Visits(g, o, roots) == Led(g, o, roots)
  {
    assert roots[..|roots|] == roots;
  }

  /** If no earlier root passes over what a later one goes down into. */
  lemma AlikeComplete(g: Graph, o: Options, roots: seq<Root>)
    requires Closed(g) && forall i :: 0 <= i < |roots| && Searched(roots[i]) ==> roots[i].key in g
    requires Alike(g, o, roots)
    ensures CompleteThroughout(g, o, roots)
  {
    hide Alike, Leads, CompleteThroughout;
    CompleteIff(g, o, roots);
    forall j, v | 0 <= j < |roots| && Leads(g, o, roots[j], v) && v !in Led(g, o, roots[..j])
      ensures Reaches(g, o, roots[j].dev, Led(g, o, roots[..j]), roots[j].key, v)
    {
      var ks := LeadsOn(g, o, roots[j], v);
      forall t | 0 <= t < |ks| ensures ks[t] !in Led(g, o, roots[..j]) {
        if ks[t] in Led(g, o, roots[..j]) { LedOn(g, o, roots, j, ks, t); }
      }
      assert Reaches(g, o, roots[j].dev, Led(g, o, roots[..j]), roots[j].key, v);
    }
  }

  lemma LeadsOn(g: Graph, o: Options, r: Root, v: Key) returns (ks: seq<Key>)
    requires Leads(g, o, r, v)
    ensures Searched(r) && Path(g, o, r.dev, ks) && ks[0] == r.key && ks[|ks| - 1] == v
  {
    ks :| Path(g, o, r.dev, ks) && ks[0] == r.key && ks[|ks| - 1] == v;
  }

  /** An earlier root that leads to a directory on the path leads to the rest of it as well. */
  lemma {:induction false} LedOn(g: Graph, o: Options, roots: seq<Root>, j: nat, ks: seq<Key>, t: nat)
    requires Closed(g) && Alike(g, o, roots) && j < |roots| && Searched(roots[j]) && roots[j].key in g
    requires Path(g, o, roots[j].dev, ks) && ks[0] == roots[j].key && t < |ks| && ks[t] in Led(g, o, roots[..j])
    ensures ks[|ks| - 1] in Led(g, o, roots[..j])
    decreases |ks| - t
  {
    if t + 1 < |ks| {
      hide Alike;
      var i :| 0 <= i < j && Leads(g, o, roots[..j][i], ks[t]);
      assert roots[..j][i] == roots[i];
      PathPrefix(g, o, roots[j].dev, ks, t + 1);
      assert Edge(g, o, roots[j].dev, ks[t], ks[t + 1]);
      AlikeEdge(g, o, roots, i, j, ks[t], ks[t + 1]);
      LedOn(g, o, roots, j, ks, t + 1);
    }
  }

  lemma AlikeEdge(g: Graph, o: Options, roots: seq<Root>, i: nat, j: nat, a: Key, b: Key)
    requires Closed(g) && Alike(g, o, roots) && i < j < |roots|
    requires Leads(g, o, roots[i], a) && Leads(g, o, roots[j], a) && Edge(g, o, roots[j].dev, a, b)
    ensures Leads(g, o, roots[i], b) && b in Led(g, o, roots[..j])
  {
    var n :| 0 <= n < |g[a]| && Descends(o, roots[j].dev, g[a][n]) && g[a][n].key == b;
    assert Descends(o, roots[i].dev, g[a][n]);
    var ks :| Path(g, o, roots[i].dev, ks) && ks[0] == roots[i].key && ks[|ks| - 1] == a;
    var more := ks + [b];
    forall t | 0 <= t < |more| - 1 ensures Edge(g, o, roots[i].dev, more[t], more[t + 1]) {
      if t + 1 < |ks| { assert Edge(g, o, roots[i].dev, ks[t], ks[t + 1]); }
    }
    assert Path(g, o, roots[i].dev, more);
    assert roots[..j][i] == roots[i];
  }

  lemma PathPrefix(g: Graph, o: Options, dev: nat, ks: seq<Key>, t: nat)
    requires Path(g, o, dev, ks) && 0 < t <= |ks|
    ensures Reaches(g, o, dev, {}, ks[0], ks[t - 1])
  {
    var init := ks[..t];
    forall i | 0 <= i < |init| - 1 ensures Edge(g, o, dev, init[i], init[i + 1]) {
      assert Edge(g, o, dev, ks[i], ks[i + 1]);
    }
    assert Path(g, o, dev, init);
  }

  lemma DeviceOf(g: Graph, o: Options, devOf: Key -> nat, root: Root, v: Key)
    requires o.oneFilesystem && DevicesKnown(g, [root], devOf) && Leads(g, o, root, v)
    ensures devOf(v) == root.dev
  {
    assert [root][0] == root;
    var ks :| Path(g, o, root.dev, ks) && ks[0] == root.key && ks[|ks| - 1] == v;
    SameDevice(g, o, devOf, root.dev, ks, |ks| - 1);
  }

  lemma {:induction false} SameDevice(g: Graph, o: Options, devOf: Key -> nat, dev: nat, ks: seq<Key>, i: nat)
    requires Path(g, o, dev, ks) && i < |ks| && dev == devOf(ks[0]) != 0 && o.oneFilesystem
    requires DevicesKnown(g, [], devOf)
    ensures devOf(ks[i]) == dev
  {
    if i > 0 {
      SameDevice(g, o, devOf, dev, ks, i - 1);
      assert Edge(g, o, dev, ks[i - 1], ks[i - 1 + 1]);
    }
  }

  lemma FinishedNone(g: Graph, o: Options, dev: nat, rs: seq<Result>, all: set<Key>)
    ensures Finished(g, o, dev, rs, {}, all)
  {
  }

  lemma FinishedUnion(g: Graph, o: Options, dev: nat, rs: seq<Result>, a: set<Key>, b: set<Key>, all: set<Key>)
    requires Finished(g, o, dev, rs, a, all) && Finished(g, o, dev, rs, b, all)
    ensures Finished(g, o, dev, rs, a + b, all)
  {
  }

  lemma StartListing(g: Graph, o: Options, dev: nat, rs: seq<Result>, k: Key, before: set<Key>, all: set<Key>)
    requires k in g && k !in before && all == before + {k} && NoDups(rs) && forall r :: r in rs ==> r.0 in before
    ensures forall v :: v in all - before ==> Reaches(g, o, dev, before, k, v)
    ensures Sound(g, o, rs, rs, all - before) && ReportsOf(g, o, rs, k, 0)
    ensures Finished(g, o, dev, rs, all - before - {k}, all)
  {
    ReachesSelf(g, o, dev, before, k);
    assert all - before - {k} == {};
    FinishedNone(g, o, dev, rs, all);
  }

  lemma NoMoreLeft(g: Graph, was: set<Key>, now: set<Key>)
    requires was <= now
    ensures |g.Keys - now| <= |g.Keys - was|
  {
    assert g.Keys - was == (g.Keys - now) + ((g.Keys - was) - (g.Keys - now));
  }

  lemma AfterReport(g: Graph, o: Options, dev: nat, reported: seq<Result>, rs: seq<Result>, rs1: seq<Result>,
                    k: Key, before: set<Key>, all: set<Key>)
    requires k in all - before
    requires Sound(g, o, reported, rs, all - before) && Sound(g, o, rs, rs1, {k})
    requires Finished(g, o, dev, rs, all - before - {k}, all)
    ensures Sound(g, o, reported, rs1, all - before) && Finished(g, o, dev, rs1, all - before - {k}, all)
  {
  }

  lemma AfterDescent(g: Graph, o: Options, dev: nat, reported: seq<Result>, rs: seq<Result>, rs1: seq<Result>,
                     k: Key, c: Key, before: set<Key>, all: set<Key>, all1: set<Key>, i: nat, complete: bool)
    requires k in all && k !in before && before <= all <= all1 && Edge(g, o, dev, k, c)
    requires forall v :: v in all - before ==> Reaches(g, o, dev, before, k, v)
    requires forall v :: v in all1 - all ==> Reaches(g, o, dev, all, c, v)
    requires Sound(g, o, reported, rs, all - before) && Sound(g, o, rs, rs1, all1 - all)
    requires complete ==> ReportsOf(g, o, rs, k, i + 1)
    requires complete ==> Finished(g, o, dev, rs, all - before - {k}, all) && Finished(g, o, dev, rs1, all1 - all, all1)
    ensures forall v :: v in all1 - before ==> Reaches(g, o, dev, before, k, v)
    ensures Sound(g, o, reported, rs1, all1 - before)
    ensures complete ==> ReportsOf(g, o, rs1, k, i + 1) && Finished(g, o, dev, rs1, all1 - before - {k}, all1)
  {
    forall v | v in all1 - before ensures Reaches(g, o, dev, before, k, v) {
      if v !in all { ReachesEdge(g, o, dev, before, all, k, c, v); }
    }
    SoundMore(g, o, reported, rs, rs1, all - before, all1 - all);
    assert all - before + (all1 - all) == all1 - before;
    if complete {
      ReportsKept(g, o, rs, rs1, all1 - all, k, i + 1);
      FinishedMore(g, o, dev, rs, rs1, all - before - {k}, all1 - all, all, all1);
      assert all - before - {k} + (all1 - all) == all1 - before - {k};
    }
  }

  /** Exactly what is to be reported in the directories `all`, each entry once. */
  ghost predicate Reports(g: Graph, o: Options, rs: seq<Result>, all: set<Key>) {
    && NoDups(rs) && (forall v :: v in all ==> v in g && ReportsOf(g, o, rs, v, |g[v]|))
    && forall r :: r in rs ==> r.0 in all
  }

  /** The root loop of search_thread.  `hits` are the roots that are not directories and
      match.  A search that is not cancelled has been through the directories `Visits` and
      reported exactly what is to be reported there; one that is cancelled has done nothing
      else. */
  method SearchRoots(job: SearchJob, roots: seq<Root>) returns (hits: seq<nat>)
    requires job.visited == {} && job.results == [] && !job.cancelled && Closed(job.graph)
    requires forall i :: 0 <= i < |roots| && Searched(roots[i]) ==> roots[i].key in job.graph
    modifies job
    ensures !job.mayCancel ==> !job.cancelled
    ensures job.visited <= Visits(job.graph, job.options, roots)
    ensures Sound(job.graph, job.options, [], job.results, job.visited)
    ensures OnlyReachable(job.graph, job.options, roots, job.results)
    ensures !job.cancelled && Visits(job.graph, job.options, roots) == Led(job.graph, job.options, roots) ==>
      AllReported(job.graph, job.options, roots, job.results)
    ensures !job.cancelled ==>
      && job.visited == Visits(job.graph, job.options, roots)
      && Reports(job.graph, job.options, job.results, Visits(job.graph, job.options, roots))
    // The reports are what the user has asked for, of the directories visited; and all of it
    // when the search is not cancelled.
    ensures AsAsked(job.graph, job.options, job.results, job.visited, !job.cancelled)
    ensures forall j: nat :: j in hits ==> j < |roots| && RootFits(job.options, roots[j])
    ensures !job.cancelled ==> forall j: nat :: j < |roots| && RootFits(job.options, roots[j]) ==> j in hits
  {
    hide Finished, Sound, ReportsOf, Reports, Matches, Reaches, Visits, Visited, OnlyReachable, AllReported,
         Led;
    ghost var g, o := job.graph, job.options;
    NothingYet(g, o);
    hits := [];
    var i := 0;
    var stop := job.PollCancelled();
    while i < |roots| && !stop
      invariant 0 <= i <= |roots| && job.Valid() && stop == job.cancelled
      invariant job.visited <= Visits(g, o, roots[..i]) && Sound(g, o, [], job.results, job.visited)
      invariant !job.cancelled ==>
        job.visited == Visits(g, o, roots[..i]) && Reports(g, o, job.results, job.visited)
      invariant forall j: nat :: j in hits <==> j < i && RootHit(job.options, roots[j])
    {
      var root := roots[i];
      ghost var all, rs := job.visited, job.results;
      VisitsNext(g, o, roots, i);
      if Searched(root) {
        job.ScanDirectory(root.key, root.dev);
        AfterRoot(g, o, root, rs, job.results, all, job.visited, !job.cancelled);
      } else {
        if root.exists_ && Matches(job.options, root.info) { hits := hits + [i]; }
        NotSearched(g, o, all, root);
      }
      i := i + 1;
      stop := job.PollCancelled();
    }
    VisitsGrow(g, o, roots, i);
    assert roots[..|roots|] == roots;
    RootsReported(g, o, roots, job.results, job.visited);
    ResultsAsAsked(g, o, job.results, job.visited, !job.cancelled);
    RootsFit(o, roots);
  }

  /** Only what fits is reported, of visited directories; and all of it, if it is `complete`. */
  ghost predicate AsAsked(g: Graph, o: Options, rs: seq<Result>, all: set<Key>, complete: bool) {
    && (forall r :: r in rs ==>
          r.0 in all && r.0 in g && r.1 < |g[r.0]| && Fits(o, g[r.0][r.1]) && (g[r.0][r.1].hidden ==> o.hidden))
    && (complete ==>
          forall v, i: nat :: v in all && v in g && i < |g[v]| && Fits(o, g[v][i]) && (g[v][i].hidden ==> o.hidden)
            ==> (v, i) in rs)
  }

  lemma ResultsAsAsked(g: Graph, o: Options, rs: seq<Result>, all: set<Key>, complete: bool)
    requires Sound(g, o, [], rs, all) && (complete ==> Reports(g, o, rs, all))
    ensures AsAsked(g, o, rs, all, complete)
  {
    hide Reported, Fits;
    forall e ensures Reported(o, e) <==> Fits(o, e) && (e.hidden ==> o.hidden) {
      FitsIff(o, e);
    }
  }

  ghost predicate RootFits(o: Options, r: Root) {
    r.exists_ && r.info.ftype != Folder && Fits(o, r.info)
  }

  lemma RootsFit(o: Options, roots: seq<Root>)
    ensures forall j :: 0 <= j < |roots| ==> (RootHit(o, roots[j]) <==> RootFits(o, roots[j]))
  {
    forall j | 0 <= j < |roots| ensures RootHit(o, roots[j]) <==> RootFits(o, roots[j]) {
      FitsIff(o, roots[j].info);
    }
  }

  lemma NothingYet(g: Graph, o: Options)
    ensures Visits(g, o, []) == {} && Sound(g, o, [], [], {}) && Reports(g, o, [], {})
  {
  }

  lemma VisitsNext(g: Graph, o: Options, roots: seq<Root>, i: nat)
    requires i < |roots|
    ensures roots[..0] == []
    ensures Visits(g, o, roots[..i + 1]) == Visited(g, o, Visits(g, o, roots[..i]), roots[i])
  {
    assert roots[..i + 1][..i] == roots[..i];
  }

  lemma NotSearched(g: Graph, o: Options, all: set<Key>, r: Root)
    requires !Searched(r)
    ensures Visited(g, o, all, r) == all
  {
  }

  lemma AfterRoot(g: Graph, o: Options, r: Root, rs: seq<Result>, rs1: seq<Result>, all: set<Key>, all1: set<Key>,
                  complete: bool)
    requires Closed(g) && Searched(r) && r.key in g && all <= all1 <= g.Keys
    requires forall v :: v in all1 - all ==> Reaches(g, o, r.dev, all, r.key, v)
    requires Sound(g, o, [], rs, all) && Sound(g, o, rs, rs1, all1 - all) && Reports(g, o, rs, all)
    requires complete ==> r.key in all1 && Finished(g, o, r.dev, rs1, all1 - all, all1)
    ensures all1 <= Visited(g, o, all, r) && Sound(g, o, [], rs1, all1)
    ensures complete ==> all1 == Visited(g, o, all, r) && Reports(g, o, rs1, all1)
  {
    hide Reaches;
    SoundMore(g, o, [], rs, rs1, all, all1 - all);
    assert all + (all1 - all) == all1;
    if complete { ScanVisits(g, o, rs1, all, all1, r); }
  }

  /** No entry twice, and only entries that some root leads to and that are to be reported. */
  ghost predicate OnlyReachable(g: Graph, o: Options, roots: seq<Root>, rs: seq<Result>) {
    && NoDups(rs)
    && forall r :: r in rs ==> r.0 in Led(g, o, roots) && r.1 < |g[r.0]| && Reported(o, g[r.0][r.1])
  }

  /** Of every directory that some root leads to, exactly what is to be reported. */
  ghost predicate AllReported(g: Graph, o: Options, roots: seq<Root>, rs: seq<Result>) {
    forall v :: v in Led(g, o, roots) ==> v in g && ReportsOf(g, o, rs, v, |g[v]|)
  }

  lemma RootsReported(g: Graph, o: Options, roots: seq<Root>, rs: seq<Result>, all: set<Key>)
    requires all <= Visits(g, o, roots) && Sound(g, o, [], rs, all)
    ensures OnlyReachable(g, o, roots, rs)
    ensures all == Visits(g, o, roots) == Led(g, o, roots) && Reports(g, o, rs, all) ==>
      AllReported(g, o, roots, rs)
  {
    hide Visits, Led, Reported, ReportsOf;
    VisitsLed(g, o, roots);
    assert roots[..|roots|] == roots;
  }

  predicate RootHit(o: Options, r: Root) {
    r.exists_ && r.info.ftype != Folder && Matches(o, r.info)
  }

  /** A search that leaves something out.  Directory 3 has no device number and holds a
      directory of the second file system.  The first root, on file system 1, visits 3 and
      passes over what it holds; for the second root, on file system 2, 3 has been visited.  So
      the entry in directory 4 is not reported, although the second root leads to it. */
  method UnknownDeviceHidesEntry() returns (rs: seq<Result>, g: Graph, o: Options, roots: seq<Root>)
    ensures (4, 0) !in rs
    ensures |roots| == 2 && 4 in g && |g[4]| == 1 && Reported(o, g[4][0]) && Leads(g, o, roots[1], 4)
  {
    var shared := Entry(false, Folder, false, 0, false, false, 0, 3);
    var inner := Entry(false, Folder, false, 0, false, false, 2, 4);
    var file := Entry(false, Regular, false, 0, true, false, 2, 0);
    g := map[1 := [shared], 2 := [shared], 3 := [inner], 4 := [file]];
    o := Options(false, true, false, true, AnyType, 0, 0, false);
    roots := [Root(true, shared, 1, 1), Root(true, shared, 2, 2)];
    var job := new SearchJob(g, o, false);
    var hits := SearchRoots(job, roots);
    rs := job.results;
    NotVisited(g, o, roots);
    SecondRootReaches(g, o);
  }

  lemma NotVisited(g: Graph, o: Options, roots: seq<Root>)
    requires |roots| == 2 && Searched(roots[0]) && roots[0].key == roots[0].dev == 1
    requires roots[1].key == roots[1].dev == 2
    requires 1 in g && 2 in g && 3 in g && |g[1]| == |g[2]| == |g[3]| == 1 && g[1][0].key == g[2][0].key == 3
    requires Descends(o, 1, g[1][0]) && !Descends(o, 1, g[3][0])
    ensures 4 !in Visits(g, o, roots)
  {
    assert roots[..1][..0] == [] && roots[..1][0] == roots[0];
    var first := Visits(g, o, roots[..1]);
    assert first == Visited(g, o, {}, roots[0]) by { NothingYet(g, o); }
    if 4 in first { FirstRootStops(g, o, {}, 4); }
    assert 3 in first by {
      assert Edge(g, o, 1, 1, 3) && Path(g, o, 1, [1, 3]);
      assert [1, 3][0] == 1 && [1, 3][|[1, 3]| - 1] == 3;
    }
    if Reaches(g, o, 2, first, 2, 4) { SecondRootStops(g, o, first, 4); }
  }

  lemma PathStep(g: Graph, o: Options, dev: nat, ks: seq<Key>, i: nat)
    requires Path(g, o, dev, ks) && i + 1 < |ks|
    ensures Edge(g, o, dev, ks[i], ks[i + 1]) && ks[i + 1] in ks
  {
  }

  lemma FirstRootStops(g: Graph, o: Options, avoid: set<Key>, v: Key)
    requires 1 in g && 3 in g && |g[1]| == 1 && |g[3]| == 1 && g[1][0].key == 3
    requires !Descends(o, 1, g[3][0])
    requires Reaches(g, o, 1, avoid, 1, v)
    ensures v == 1 || v == 3
  {
    var ks :| Path(g, o, 1, ks) && ks[0] == 1 && ks[|ks| - 1] == v && forall k :: k in ks ==> k !in avoid;
    hide Path;
    if |ks| > 1 { PathStep(g, o, 1, ks, 0); }
    if |ks| > 2 { PathStep(g, o, 1, ks, 1); }
  }

  lemma SecondRootStops(g: Graph, o: Options, avoid: set<Key>, v: Key)
    requires 2 in g && |g[2]| == 1 && g[2][0].key == 3 && 3 in avoid
    requires Reaches(g, o, 2, avoid, 2, v)
    ensures v == 2
  {
    var ks :| Path(g, o, 2, ks) && ks[0] == 2 && ks[|ks| - 1] == v && forall k :: k in ks ==> k !in avoid;
    hide Path;
    if |ks| > 1 { PathStep(g, o, 2, ks, 0); }
  }

  lemma SecondRootReaches(g: Graph, o: Options)
    requires 2 in g && 3 in g && |g[2]| == 1 && |g[3]| == 1 && g[2][0].key == 3 && g[3][0].key == 4
    requires Descends(o, 2, g[2][0]) && Descends(o, 2, g[3][0])
    ensures Reaches(g, o, 2, {}, 2, 4)
  {
    var ks := [2, 3, 4];
    assert Edge(g, o, 2, 2, 3) && Edge(g, o, 2, 3, 4);
    forall i | 0 <= i < |ks| - 1 ensures Edge(g, o, 2, ks[i], ks[i + 1]) {
    }
    assert Path(g, o, 2, ks);
  }
}
