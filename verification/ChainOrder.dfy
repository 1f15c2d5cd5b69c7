/** In what order the `extends` walk takes the roots, and the entries of one file
    (crates/core/src/chain.rs). */
module ChainOrder {
  import opened Basics
  import opened Chain

  ghost predicate Before<K>(order: seq<K>, x: K, y: K) {
    exists a, b | 0 <= a < b < |order| :: order[a] == x && order[b] == y
  }

  lemma BeforeThePrefixEnds<K>(order: seq<K>, part: seq<K>, x: K, y: K)
    requires part <= order && x in part && y !in part && y in order
    ensures Before(order, x, y)
  {
    var a :| 0 <= a < |part| && part[a] == x;
    var b :| 0 <= b < |order| && order[b] == y;
    assert order[a] == x;
    assert order[..|part|] == part;
  }

  /* ----- the roots ----- */

  lemma {:induction false} WalkedInParts<K(!new)>(g: K -> File<K>, s: State<K>, roots: seq<K>, i: nat)
    requires i <= |roots| && Walked(g, s, roots, false).Ok?
    ensures Walked(g, s, roots[..i], false).Ok?
    ensures Walked(g, Walked(g, s, roots[..i], false).value, roots[i..], false) == Walked(g, s, roots, false)
    decreases i
  {
    if i == 0 {
      assert roots[..0] == [] && roots[0..] == roots;
    } else {
      assert roots[..i][0] == roots[0] && roots[..i][1..] == roots[1..][..i - 1] && roots[1..][i - 1..] == roots[i..];
      WalkedInParts(g, Visited(g, s, roots[0], false).value, roots[1..], i - 1);
    }
  }

  /** Earlier roots come first: whatever can be reached from them stands before whatever
      cannot. */
  lemma EarlierRootsFirst<K(!new)>(g: K -> File<K>, roots: seq<K>, i: nat, x: K, y: K)
    requires WalkOf(g, roots, false).Ok? && i <= |roots|
    requires Reaches(g, roots[..i], x)
    requires Reaches(g, roots, y) && !Reaches(g, roots[..i], y)
    ensures Before(WalkOf(g, roots, false).value.order, x, y)
  {
    var start: State<K> := State([], {}, []);
    EmptyIsGood(g, roots);
    WalkedInParts(g, start, roots, i);
    WalkIsSound(g, roots, start, roots[..i], false);
    var part := Walked(g, start, roots[..i], false).value;
    WalkIsSound(g, roots, part, roots[i..], false);
    WalkFlattens(g, roots[..i]);
    WalkFlattens(g, roots);
    BeforeThePrefixEnds(WalkOf(g, roots, false).value.order, part.order, x, y);
  }

  /* ----- the entries of a file ----- */

  /** Some chain leads from a root to the file that `without` is not in. */
  ghost predicate ReachesWithout<K(!new)>(g: K -> File<K>, roots: seq<K>, without: K, file: K) {
    exists path :: Path(g, path) && path[0] in roots && path[|path| - 1] == file && without !in path
  }

  /** One of these entries leads to the file. */
  ghost predicate LeadsTo<K(!new)>(g: K -> File<K>, entries: seq<Option<K>>, file: K) {
    exists p :: Some(p) in entries && Reaches(g, [p], file)
  }

  /** The walk has not come to `f` yet. */
  ghost predicate NotYet<K(!new)>(g: K -> File<K>, roots: seq<K>, f: K, s: State<K>) {
    f !in s.stack && f !in s.seen && forall k | k in s.seen :: ReachesWithout(g, roots, f, k)
  }

  /** The walk comes to `f` in the state `e`, and what it lists there stays in `t`. */
  ghost predicate Enters<K(!new)>(g: K -> File<K>, roots: seq<K>, f: K, e: State<K>, t: State<K>) {
    && Good(g, roots, e) && NotYet(g, roots, f, e) && MayVisit(g, roots, e, f)
    && Visited(g, e, f, false).Ok? && Visited(g, e, f, false).value.order <= t.order
  }

  ghost predicate EntersOrNot<K(!new)>(g: K -> File<K>, roots: seq<K>, f: K, e: State<K>, t: State<K>) {
    if f in t.seen then Enters(g, roots, f, e, t) else NotYet(g, roots, f, t)
  }

  lemma PushedIsGood<K(!new)>(g: K -> File<K>, roots: seq<K>, s: State<K>, file: K)
    requires Good(g, roots, s) && MayVisit(g, roots, s, file) && file !in s.stack && file !in s.seen
    ensures Good(g, roots, s.(stack := s.stack + [file]))
  {
    StackReaches(g, roots, s, file);
  }

  /** What a visit of a file that is new comes to. */
  lemma VisitUnfolds<K(!new)>(g: K -> File<K>, s: State<K>, file: K)
    requires Visited(g, s, file, false).Ok? && file !in s.seen
    ensures file !in s.stack && |s.stack| < MAX_DEPTH && g(file).Loaded?
    ensures var below := VisitedAll(g, s.(stack := s.stack + [file]), file, g(file).parents, false);
            below.Ok? && Visited(g, s, file, false)
              == Ok(State(s.stack, below.value.seen + {file}, below.value.order + [file]))
  {
  }

  lemma {:induction false} VisitEnters<K(!new)>(g: K -> File<K>, roots: seq<K>, s: State<K>, file: K, f: K)
    returns (e: State<K>)
    requires Good(g, roots, s) && MayVisit(g, roots, s, file) && NotYet(g, roots, f, s)
    requires Visited(g, s, file, false).Ok?
    ensures EntersOrNot(g, roots, f, e, Visited(g, s, file, false).value)
    decreases MAX_DEPTH - |s.stack|, 0
  {
    e := s;
    if file != f && file !in s.seen {
      var pushed, parents := s.(stack := s.stack + [file]), g(file).parents;
      VisitUnfolds(g, s, file);
      PushedIsGood(g, roots, s, file);
      e := VisitAllEnters(g, roots, pushed, file, parents, f);
      ReachedOnStack(g, roots, s, file, f);
      EntersOnceFinished(g, roots, VisitedAll(g, pushed, file, parents, false).value,
                         Visited(g, s, file, false).value, file, f, e);
    }
  }

  lemma EntersOnceFinished<K(!new)>(g: K -> File<K>, roots: seq<K>, below: State<K>, t: State<K>, file: K, f: K,
      e: State<K>)
    requires f !in t.stack && f != file && ReachesWithout(g, roots, f, file)
    requires t.seen == below.seen + {file} && t.order == below.order + [file]
    requires EntersOrNot(g, roots, f, e, below)
    ensures EntersOrNot(g, roots, f, e, t)
  {
    if f in below.seen {
      assert below.order <= t.order;
    } else {
      forall k | k in t.seen ensures ReachesWithout(g, roots, f, k) {
        assert k in below.seen || k == file;
      }
    }
  }

  lemma ReachedOnStack<K(!new)>(g: K -> File<K>, roots: seq<K>, s: State<K>, file: K, f: K)
    requires Good(g, roots, s) && MayVisit(g, roots, s, file) && f != file && f !in s.stack
    ensures ReachesWithout(g, roots, f, file)
  {
    StackReaches(g, roots, s, file);
    var path := s.stack + [file];
    assert Path(g, path) && path[0] in roots && path[|path| - 1] == file && f !in path;
  }

  lemma {:induction false} VisitAllEnters<K(!new)>(g: K -> File<K>, roots: seq<K>, s: State<K>, of: K,
      parents: seq<Option<K>>, f: K)
    returns (e: State<K>)
    requires Good(g, roots, s) && NotYet(g, roots, f, s)
    requires s.stack != [] && s.stack[|s.stack| - 1] == of && g(of).Loaded?
    requires (forall p :: p in parents ==> p in g(of).parents) && VisitedAll(g, s, of, parents, false).Ok?
    ensures EntersOrNot(g, roots, f, e, VisitedAll(g, s, of, parents, false).value)
    decreases MAX_DEPTH - |s.stack|, 1 + |parents|
  {
    e := s;
    if parents != [] {
      assert parents[0] in parents;
      e := VisitEnters(g, roots, s, parents[0].value, f);
      var t := Visited(g, s, parents[0].value, false).value;
      VisitIsSound(g, roots, s, parents[0].value, false);
      VisitAllIsSound(g, roots, t, of, parents[1..], false);
      if f !in t.seen {
        e := VisitAllEnters(g, roots, t, of, parents[1..], f);
      }
    }
  }

  lemma {:induction false} WalkEnters<K(!new)>(g: K -> File<K>, all: seq<K>, s: State<K>, roots: seq<K>, f: K)
    returns (e: State<K>)
    requires Good(g, all, s) && NotYet(g, all, f, s) && s.stack == [] && Walked(g, s, roots, false).Ok?
    requires forall k :: k in roots ==> k in all
    ensures EntersOrNot(g, all, f, e, Walked(g, s, roots, false).value)
    decreases |roots|
  {
    e := s;
    if roots != [] {
      assert roots[0] in roots;
      e := VisitEnters(g, all, s, roots[0], f);
      var t := Visited(g, s, roots[0], false).value;
      VisitIsSound(g, all, s, roots[0], false);
      WalkIsSound(g, all, t, roots[1..], false);
      if f !in t.seen {
        e := WalkEnters(g, all, t, roots[1..], f);
      }
    }
  }

  lemma {:induction false} VisitedInParts<K(!new)>(g: K -> File<K>, s: State<K>, of: K, parents: seq<Option<K>>, i: nat)
    requires i <= |parents| && VisitedAll(g, s, of, parents, false).Ok?
    ensures VisitedAll(g, s, of, parents[..i], false).Ok?
    ensures VisitedAll(g, VisitedAll(g, s, of, parents[..i], false).value, of, parents[i..], false)
         == VisitedAll(g, s, of, parents, false)
    decreases i
  {
    if i == 0 {
      assert parents[..0] == [] && parents[0..] == parents;
    } else {
      assert parents[..i][0] == parents[0] && parents[..i][1..] == parents[1..][..i - 1];
      assert parents[1..][i - 1..] == parents[i..];
      VisitedInParts(g, Visited(g, s, parents[0].value, false).value, of, parents[1..], i - 1);
    }
  }

  lemma ReachesOn<K(!new)>(g: K -> File<K>, file: K, parent: K, k: K)
    requires Edge(g, file, parent) && Reaches(g, [parent], k)
    ensures Reaches(g, [file], k)
  {
    var path :| Path(g, path) && path[0] in [parent] && path[|path| - 1] == k;
    PathGrows(g, file, path);
    var longer := [file] + path;
    assert Path(g, longer) && longer[0] in [file] && longer[|longer| - 1] == k;
  }

  /** A visit finishes only what can be reached from its file. */
  lemma {:induction false} VisitSees<K(!new)>(g: K -> File<K>, s: State<K>, file: K, k: K)
    requires Visited(g, s, file, false).Ok? && k in Visited(g, s, file, false).value.seen
    ensures k in s.seen || Reaches(g, [file], k)
    decreases MAX_DEPTH - |s.stack|, 0
  {
    assert Path(g, [file]) && [file][0] in [file];
    if k !in s.seen && k != file {
      VisitAllSees(g, s.(stack := s.stack + [file]), file, g(file).parents, k);
      var p :| Some(p) in g(file).parents && Reaches(g, [p], k);
      ReachesOn(g, file, p, k);
    }
  }

  lemma {:induction false} VisitAllSees<K(!new)>(g: K -> File<K>, s: State<K>, of: K, parents: seq<Option<K>>, k: K)
    requires VisitedAll(g, s, of, parents, false).Ok? && k in VisitedAll(g, s, of, parents, false).value.seen
    ensures k in s.seen || LeadsTo(g, parents, k)
    decreases MAX_DEPTH - |s.stack|, 1 + |parents|
  {
    if parents != [] {
      var t := Visited(g, s, parents[0].value, false).value;
      assert parents[0] in parents;
      VisitAllSees(g, t, of, parents[1..], k);
      if k in t.seen {
        VisitSees(g, s, parents[0].value, k);
      }
    }
  }

  /** What a file that is being read has listed once some of its entries are done: all they
      lead to, and else only what was there before. */
  lemma EntriesDone<K(!new)>(g: K -> File<K>, roots: seq<K>, f: K, e: State<K>, i: nat, x: K, y: K)
    returns (part: seq<K>)
    requires Good(g, roots, e) && MayVisit(g, roots, e, f) && f !in e.seen && Visited(g, e, f, false).Ok?
    requires g(f).Loaded? && i <= |g(f).parents|
    requires LeadsTo(g, g(f).parents[..i], x) && !LeadsTo(g, g(f).parents[..i], y) && y !in e.seen
    ensures part <= Visited(g, e, f, false).value.order && x in part && y !in part
  {
    var pushed, parents := e.(stack := e.stack + [f]), g(f).parents;
    VisitUnfolds(g, e, f);
    PushedIsGood(g, roots, e, f);
    VisitedInParts(g, pushed, f, parents, i);
    var u := VisitedAll(g, pushed, f, parents[..i], false).value;
    part := u.order;
    EntriesKept(g, roots, pushed, f, i, u);
    var p :| Some(p) in parents[..i] && Reaches(g, [p], x);
    ClosedUnderReach(g, u, p, x);
    if y in part {
      VisitAllSees(g, pushed, f, parents[..i], y);
    }
  }

  lemma EntriesKept<K(!new)>(g: K -> File<K>, roots: seq<K>, s: State<K>, f: K, i: nat, u: State<K>)
    requires Good(g, roots, s) && s.stack != [] && s.stack[|s.stack| - 1] == f
    requires g(f).Loaded? && i <= |g(f).parents|
    requires VisitedAll(g, s, f, g(f).parents[..i], false) == Ok(u)
    requires VisitedAll(g, u, f, g(f).parents[i..], false).Ok?
    ensures Good(g, roots, u) && forall p | p in g(f).parents[..i] :: p.Some? && p.value in u.seen
    ensures u.order <= VisitedAll(g, u, f, g(f).parents[i..], false).value.order
  {
    VisitAllIsSound(g, roots, s, f, g(f).parents[..i], false);
    VisitAllIsSound(g, roots, u, f, g(f).parents[i..], false);
  }

  lemma ClosedUnderReach<K(!new)>(g: K -> File<K>, s: State<K>, from: K, k: K)
    requires Finished(g, s) && from in s.seen && Reaches(g, [from], k)
    ensures k in s.order
  {
    var path :| Path(g, path) && path[0] in [from] && path[|path| - 1] == k;
    var at :| 0 <= at < |s.order| && s.order[at] == from;
    PathDescends(g, s, path, at);
  }

  /** Earlier entries of a file come first: whatever they lead to stands before whatever
      they do not, if that is reached through the file only. */
  lemma EarlierEntriesFirst<K(!new)>(g: K -> File<K>, roots: seq<K>, f: K, i: nat, x: K, y: K)
    requires WalkOf(g, roots, false).Ok? && Reaches(g, roots, f)
    requires g(f).Loaded? && i <= |g(f).parents|
    requires LeadsTo(g, g(f).parents[..i], x) && !LeadsTo(g, g(f).parents[..i], y)
    requires Reaches(g, roots, y) && !ReachesWithout(g, roots, f, y)
    ensures Before(WalkOf(g, roots, false).value.order, x, y)
  {
    var t := WalkEnds(g, roots);
    var at := ReachedIsListed(g, roots, t, y);
    var e := WalkComesTo(g, roots, f);
    var part := EntriesDone(g, roots, f, e, i, x, y);
    BeforeThePrefixEnds(t.order, part, x, y);
  }

  /** A walk that succeeds comes to every file it can reach, at which moment only what is
      reached without the file has been listed. */
  lemma WalkComesTo<K(!new)>(g: K -> File<K>, roots: seq<K>, f: K) returns (e: State<K>)
    requires WalkOf(g, roots, false).Ok? && Reaches(g, roots, f)
    ensures Enters(g, roots, f, e, WalkOf(g, roots, false).value)
  {
    var start: State<K> := State([], {}, []);
    WalkSees(g, roots, f);
    EmptyIsGood(g, roots);
    e := WalkEnters(g, roots, start, roots, f);
  }

  lemma WalkSees<K(!new)>(g: K -> File<K>, roots: seq<K>, f: K)
    requires WalkOf(g, roots, false).Ok? && Reaches(g, roots, f)
    ensures f in WalkOf(g, roots, false).value.seen
  {
    var t := WalkEnds(g, roots);
    var at := ReachedIsListed(g, roots, t, f);
  }
}
