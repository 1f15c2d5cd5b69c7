/** The `extends` walk (crates/core/src/chain.rs): a depth-first flattening of a
    file graph that need not be finite, with its cycle, depth and size checks. */
module Chain {
  import opened Basics

  const MAX_DEPTH: nat := 8
  const MAX_FILES: nat := 64

  /** What reading a file gives: nothing usable, or its `extends` entries in
      order, `None` standing for one that cannot be resolved. */
  datatype File<K> = Unusable | Loaded(parents: seq<Option<K>>)

  /** Why a walk stops. A cycle and a chain too deep carry the whole chain, as the message does. */
  datatype Fault<K> = Cycle(path: seq<K>) | TooDeep(path: seq<K>) | TooMany(file: K) | Broken(file: K)

  datatype State<K> = State(stack: seq<K>, seen: set<K>, order: seq<K>) {
    function Size(): nat {
      |seen| + |stack|
    }
  }

  /** When a file is one too many. The code counts finished files only; `strict`
      also counts those still being read. */
  predicate Full<K(==)>(s: State<K>, strict: bool) {
    (if strict then s.Size() else |s.seen|) >= MAX_FILES
  }

  function Visited<K(==)>(g: K -> File<K>, s: State<K>, file: K, strict: bool): (r: Result<State<K>, Fault<K>>)
    ensures r.Ok? ==> r.value.stack == s.stack
    decreases MAX_DEPTH - |s.stack|, 0
  {
    if file in s.stack then Err(Cycle(s.stack + [file]))
    else if file in s.seen then Ok(s)
    else if |s.stack| >= MAX_DEPTH then Err(TooDeep(s.stack + [file]))
    else if Full(s, strict) then Err(TooMany(file))
    else
      match g(file)
      case Unusable => Err(Broken(file))
      case Loaded(parents) =>
        match VisitedAll(g, s.(stack := s.stack + [file]), file, parents, strict)
        case Err(fault) => Err(fault)
        case Ok(t) => Ok(State(s.stack, t.seen + {file}, t.order + [file]))
  }

  /** Visits `of`'s parents in order. */
  function VisitedAll<K(==)>(g: K -> File<K>, s: State<K>, of: K, parents: seq<Option<K>>, strict: bool)
    : (r: Result<State<K>, Fault<K>>)
    ensures r.Ok? ==> r.value.stack == s.stack
    decreases MAX_DEPTH - |s.stack|, 1 + |parents|
  {
    if parents == [] then Ok(s)
    else if parents[0].None? then Err(Broken(of))
    else
      match Visited(g, s, parents[0].value, strict)
      case Err(fault) => Err(fault)
      case Ok(t) => VisitedAll(g, t, of, parents[1..], strict)
  }

  function Walked<K(==)>(g: K -> File<K>, s: State<K>, roots: seq<K>, strict: bool): Result<State<K>, Fault<K>>
    decreases |roots|
  {
    if roots == [] then Ok(s)
    else
      match Visited(g, s, roots[0], strict)
      case Err(fault) => Err(fault)
      case Ok(t) => Walked(g, t, roots[1..], strict)
  }

  /* ----- the walk itself ----- */

  class Walk<K(==)> {
    var stack: seq<K>
    var seen: set<K>
    var order: seq<K>

    constructor ()
      ensures Now() == State([], {}, [])
    {
      stack, seen, order := [], {}, [];
    }

    ghost function Now(): State<K>
      reads this
    {
      State(stack, seen, order)
    }

    method Visit(g: K -> File<K>, file: K) returns (fault: Option<Fault<K>>)
      modifies this
      ensures match Visited(g, old(Now()), file, false)
              case Ok(t) => fault == None && Now() == t
              case Err(f) => fault == Some(f)
      decreases MAX_DEPTH - |stack|
    {
      if file in stack {
        return Some(Cycle(stack + [file]));
      }
      if file in seen {
        return None;
      }
      if |stack| >= MAX_DEPTH {
        return Some(TooDeep(stack + [file]));
      }
      if |seen| >= MAX_FILES {
        return Some(TooMany(file));
      }
      if g(file).Unusable? {
        return Some(Broken(file));
      }
      ghost var before := Now();
      var parents := g(file).parents;
      stack := stack + [file];
      ghost var pushed := Now();
      var i := 0;
      while i < |parents|
        invariant 0 <= i <= |parents| && stack == before.stack + [file]
        invariant VisitedAll(g, Now(), file, parents[i..], false) == VisitedAll(g, pushed, file, parents, false)
      {
        if parents[i].None? {
          return Some(Broken(file));
        }
        fault := Visit(g, parents[i].value);
        if fault.Some? {
          return;
        }
        assert parents[i..][1..] == parents[i + 1..];
        i := i + 1;
      }
      assert stack[..|stack| - 1] == before.stack;
      stack := stack[..|stack| - 1];
      seen := seen + {file};
      order := order + [file];
      return None;
    }

    method Run(g: K -> File<K>, roots: seq<K>) returns (fault: Option<Fault<K>>)
      requires Now() == State([], {}, [])
      modifies this
      ensures match Walked(g, State([], {}, []), roots, false)
              case Ok(t) => fault == None && Now() == t
              case Err(f) => fault == Some(f)
    {
      var i := 0;
      while i < |roots|
        invariant 0 <= i <= |roots|
        invariant Walked(g, Now(), roots[i..], false) == Walked(g, State([], {}, []), roots, false)
      {
        fault := Visit(g, roots[i]);
        if fault.Some? {
          return;
        }
        assert roots[i..][1..] == roots[i + 1..];
        i := i + 1;
      }
      return None;
    }
  }

  /* ----- the graph ----- */

  ghost predicate Edge<K>(g: K -> File<K>, child: K, parent: K) {
    g(child).Loaded? && Some(parent) in g(child).parents
  }

  ghost predicate Path<K>(g: K -> File<K>, path: seq<K>) {
    path != [] && forall i | 0 <= i < |path| - 1 :: Edge(g, path[i], path[i + 1])
  }

  ghost predicate Reaches<K(!new)>(g: K -> File<K>, roots: seq<K>, file: K) {
    exists path :: Path(g, path) && path[0] in roots && path[|path| - 1] == file
  }

  /** What holds of every state of a walk. Everything finished has all its
      parents finished before it; everything on the stack is one chain of edges. */
  ghost predicate Good<K(!new)>(g: K -> File<K>, roots: seq<K>, s: State<K>) {
    && Finished(g, s)
    && (s.stack == [] || (Path(g, s.stack) && s.stack[0] in roots))
    && (forall i, j | 0 <= i < j < |s.stack| :: s.stack[i] != s.stack[j])
    && (forall k :: k in s.stack ==> k !in s.seen)
    && (forall k :: k in s.seen ==> Reaches(g, roots, k))
  }

  ghost predicate Finished<K(!new)>(g: K -> File<K>, s: State<K>) {
    && (forall i, j | 0 <= i < j < |s.order| :: s.order[i] != s.order[j])
    && (forall k :: k in s.seen <==> k in s.order)
    && |s.seen| == |s.order|
    && forall i | 0 <= i < |s.order| :: Resolved(g, s.order[i], s.order[..i])
  }

  /** The file loads, and each of its parents is among `before`. */
  ghost predicate Resolved<K>(g: K -> File<K>, file: K, before: seq<K>) {
    g(file).Loaded? && forall p :: p in g(file).parents ==> p.Some? && p.value in before
  }

  /** Beside `file`, as many files as a walk may load can be reached. */
  ghost predicate ManyReached<K(!new)>(g: K -> File<K>, roots: seq<K>, file: K, files: set<K>) {
    |files| >= MAX_FILES && file !in files && forall k | k in files :: Reaches(g, roots, k)
  }

  /** A fault says something true about the graph. */
  ghost predicate Real<K(!new)>(g: K -> File<K>, roots: seq<K>, fault: Fault<K>) {
    match fault
    case Cycle(path) => Path(g, path) && path[0] in roots && path[|path| - 1] in path[..|path| - 1]
    case TooDeep(path) => Path(g, path) && path[0] in roots && |path| > MAX_DEPTH
    case TooMany(file) => Reaches(g, roots, file) && exists files :: ManyReached(g, roots, file, files)
    case Broken(file) => Reaches(g, roots, file) && (g(file).Loaded? ==> None in g(file).parents)
  }

  ghost predicate MayVisit<K>(g: K -> File<K>, roots: seq<K>, s: State<K>, file: K) {
    if s.stack == [] then file in roots else Edge(g, s.stack[|s.stack| - 1], file)
  }

  /** What a step of the walk from `s` that ends in `r` promises. */
  ghost predicate Sound<K(!new)>(g: K -> File<K>, roots: seq<K>, s: State<K>, r: Result<State<K>, Fault<K>>) {
    match r
    case Err(fault) => Real(g, roots, fault)
    case Ok(t) => Good(g, roots, t) && s.order <= t.order && s.seen <= t.seen && s.Size() <= t.Size()
  }

  lemma StackReaches<K(!new)>(g: K -> File<K>, roots: seq<K>, s: State<K>, file: K)
    requires Good(g, roots, s) && MayVisit(g, roots, s, file)
    ensures Path(g, s.stack + [file]) && (s.stack + [file])[0] in roots && Reaches(g, roots, file)
  {
    var path := s.stack + [file];
    assert Path(g, path) && path[0] in roots && path[|path| - 1] == file;
  }

  lemma {:induction false} AsManyInSet<K>(stack: seq<K>)
    requires forall i, j | 0 <= i < j < |stack| :: stack[i] != stack[j]
    ensures |set k | k in stack| == |stack|
  {
    if stack != [] {
      var init, last := stack[..|stack| - 1], stack[|stack| - 1];
      AsManyInSet(init);
      assert stack == init + [last];
      assert (set k | k in stack) == (set k | k in init) + {last};
    }
  }

  lemma DisjointSizes<K>(a: set<K>, b: set<K>)
    requires a !! b
    ensures |a + b| == |a| + |b|
  {
  }

  lemma OnStackReaches<K(!new)>(g: K -> File<K>, roots: seq<K>, s: State<K>, k: K)
    requires Good(g, roots, s) && k in s.stack
    ensures Reaches(g, roots, k)
  {
    var i :| 0 <= i < |s.stack| && s.stack[i] == k;
    var path := s.stack[..i + 1];
    assert Path(g, path) && path[0] in roots && path[|path| - 1] == k;
  }

  /** When a file is one too many, the others are there. */
  lemma FullIsReal<K(!new)>(g: K -> File<K>, roots: seq<K>, s: State<K>, file: K, strict: bool)
    requires Good(g, roots, s) && file !in s.stack && file !in s.seen && Full(s, strict)
    ensures exists files :: ManyReached(g, roots, file, files)
  {
    var onStack := set k | k in s.stack;
    AsManyInSet(s.stack);
    DisjointSizes(s.seen, onStack);
    forall k | k in s.seen + onStack ensures Reaches(g, roots, k) {
      if k in s.stack {
        OnStackReaches(g, roots, s, k);
      }
    }
    assert ManyReached(g, roots, file, s.seen + onStack);
  }

  lemma {:induction false} VisitIsSound<K(!new)>(g: K -> File<K>, roots: seq<K>, s: State<K>, file: K, strict: bool)
    requires Good(g, roots, s) && MayVisit(g, roots, s, file)
    ensures Sound(g, roots, s, Visited(g, s, file, strict))
    ensures Visited(g, s, file, strict).Ok? ==> file in Visited(g, s, file, strict).value.seen
    decreases MAX_DEPTH - |s.stack|, 0
  {
    StackReaches(g, roots, s, file);
    if file in s.stack {
      assert (s.stack + [file])[..|s.stack|] == s.stack;
    } else if file !in s.seen && Full(s, strict) {
      FullIsReal(g, roots, s, file, strict);
    } else if file !in s.seen && |s.stack| < MAX_DEPTH && g(file).Loaded? {
      var pushed := s.(stack := s.stack + [file]);
      VisitAllIsSound(g, roots, pushed, file, g(file).parents, strict);
      var below := VisitedAll(g, pushed, file, g(file).parents, strict);
      if below.Ok? {
        Finish(g, roots, s, below.value, file);
      }
    }
  }

  lemma {:induction false} VisitAllIsSound<K(!new)>(
    g: K -> File<K>, roots: seq<K>, s: State<K>, of: K, parents: seq<Option<K>>, strict: bool)
    requires Good(g, roots, s) && s.stack != [] && s.stack[|s.stack| - 1] == of && g(of).Loaded?
    requires forall p :: p in parents ==> p in g(of).parents
    ensures var r := VisitedAll(g, s, of, parents, strict);
            && Sound(g, roots, s, r)
            && (r.Ok? ==> forall p :: p in parents ==> p.Some? && p.value in r.value.seen)
    decreases MAX_DEPTH - |s.stack|, 1 + |parents|
  {
    if parents != [] {
      assert parents[0] in parents;
      if parents[0].None? {
        var path := s.stack;
        assert Path(g, path) && path[0] in roots && path[|path| - 1] == of;
      } else {
        VisitIsSound(g, roots, s, parents[0].value, strict);
        var t := Visited(g, s, parents[0].value, strict);
        if t.Ok? {
          VisitAllIsSound(g, roots, t.value, of, parents[1..], strict);
          assert forall p :: p in parents ==> p == parents[0] || p in parents[1..];
        }
      }
    }
  }

  lemma ResolvedStays<K(!new)>(g: K -> File<K>, order: seq<K>, file: K)
    requires (forall i | 0 <= i < |order| :: Resolved(g, order[i], order[..i])) && Resolved(g, file, order)
    ensures forall i | 0 <= i < |order + [file]| :: Resolved(g, (order + [file])[i], (order + [file])[..i])
  {
    var more := order + [file];
    forall i | 0 <= i < |more| ensures Resolved(g, more[i], more[..i]) {
      if i < |order| {
        assert more[..i] == order[..i];
      } else {
        assert more[..i] == order;
      }
    }
  }

  /** A file joins the order once all its parents are in it. */
  lemma FinishOrder<K(!new)>(g: K -> File<K>, below: State<K>, file: K, stack: seq<K>)
    requires Finished(g, below) && file !in below.seen && Resolved(g, file, below.order)
    ensures Finished(g, State(stack, below.seen + {file}, below.order + [file]))
  {
    ResolvedStays(g, below.order, file);
    DistinctStays(below.order, file);
  }

  lemma DistinctStays<K>(order: seq<K>, file: K)
    requires (forall i, j | 0 <= i < j < |order| :: order[i] != order[j]) && file !in order
    ensures forall i, j | 0 <= i < j < |order + [file]| :: (order + [file])[i] != (order + [file])[j]
    ensures forall k :: k in order + [file] <==> k in order || k == file
  {
  }

  /** The stack without its last file is still one chain, apart from what is finished. */
  lemma StackStays<K>(s: State<K>, below: State<K>, file: K)
    requires below.stack == s.stack + [file] && file !in s.stack
    requires forall k :: k in below.stack ==> k !in below.seen
    ensures file !in below.seen && forall k :: k in s.stack ==> k !in below.seen + {file}
  {
    assert below.stack[|s.stack|] == file;
    forall k | k in s.stack ensures k !in below.seen + {file} {
      var i :| 0 <= i < |s.stack| && s.stack[i] == k;
      assert below.stack[i] == k;
    }
  }

  /** Taking a file off the stack and onto the order, once its parents are done. */
  lemma Finish<K(!new)>(g: K -> File<K>, roots: seq<K>, s: State<K>, below: State<K>, file: K)
    requires Good(g, roots, s) && Good(g, roots, below) && below.stack == s.stack + [file] && Reaches(g, roots, file)
    requires file !in s.stack && g(file).Loaded? && s.order <= below.order && s.seen <= below.seen
    requires s.Size() < below.Size()
    requires forall p :: p in g(file).parents ==> p.Some? && p.value in below.seen
    ensures var t := State(s.stack, below.seen + {file}, below.order + [file]);
            Good(g, roots, t) && s.order <= t.order && s.Size() <= t.Size()
  {
    StackStays(s, below, file);
    assert Resolved(g, file, below.order);
    FinishOrder(g, below, file, s.stack);
  }

  lemma EmptyIsGood<K(!new)>(g: K -> File<K>, roots: seq<K>)
    ensures Good(g, roots, State([], {}, []))
  {
  }

  lemma {:induction false} WalkIsSound<K(!new)>(g: K -> File<K>, all: seq<K>, s: State<K>, roots: seq<K>, strict: bool)
    requires Good(g, all, s) && s.stack == [] && forall k :: k in roots ==> k in all
    ensures var r := Walked(g, s, roots, strict);
            && Sound(g, all, s, r)
            && (r.Ok? ==> r.value.stack == [] && forall k :: k in roots ==> k in r.value.seen)
    decreases |roots|
  {
    if roots != [] {
      assert roots[0] in roots;
      VisitIsSound(g, all, s, roots[0], strict);
      var t := Visited(g, s, roots[0], strict);
      if t.Ok? {
        WalkIsSound(g, all, t.value, roots[1..], strict);
        assert forall k :: k in roots ==> k == roots[0] || k in roots[1..];
      }
    }
  }

  function WalkOf<K(==)>(g: K -> File<K>, roots: seq<K>, strict: bool): Result<State<K>, Fault<K>> {
    Walked(g, State([], {}, []), roots, strict)
  }

  /* ----- what a successful walk proves about the graph ----- */

  /** The order is closed under parents, so following edges only goes towards its front. */
  lemma {:induction false} PathDescends<K(!new)>(g: K -> File<K>, s: State<K>, path: seq<K>, at: nat)
    requires Finished(g, s) && Path(g, path) && at < |s.order| && s.order[at] == path[0]
    ensures exists to | 0 <= to <= at :: s.order[to] == path[|path| - 1] && (|path| > 1 ==> to < at)
    decreases |path|
  {
    if |path| > 1 {
      assert Edge(g, path[0], path[1]) && Resolved(g, s.order[at], s.order[..at]);
      var next :| 0 <= next < at && s.order[next] == path[1];
      assert Path(g, path[1..]) by {
        forall i | 0 <= i < |path[1..]| - 1 ensures Edge(g, path[1..][i], path[1..][i + 1]) {
          assert Edge(g, path[i + 1], path[i + 2]);
        }
      }
      PathDescends(g, s, path[1..], next);
    }
  }

  lemma WalkEnds<K(!new)>(g: K -> File<K>, roots: seq<K>) returns (s: State<K>)
    requires WalkOf(g, roots, false).Ok?
    ensures s == WalkOf(g, roots, false).value && Good(g, roots, s) && forall k :: k in roots ==> k in s.order
  {
    EmptyIsGood(g, roots);
    WalkIsSound(g, roots, State([], {}, []), roots, false);
    s := WalkOf(g, roots, false).value;
  }

  /** Every file reachable from the roots has its place in the order. */
  lemma ReachedIsListed<K(!new)>(g: K -> File<K>, roots: seq<K>, s: State<K>, file: K) returns (at: nat)
    requires Finished(g, s) && (forall k :: k in roots ==> k in s.order) && Reaches(g, roots, file)
    ensures at < |s.order| && s.order[at] == file
  {
    var path :| Path(g, path) && path[0] in roots && path[|path| - 1] == file;
    var from :| 0 <= from < |s.order| && s.order[from] == path[0];
    PathDescends(g, s, path, from);
    at :| 0 <= at <= from && s.order[at] == file;
  }

  /** A walk that succeeds lists exactly the files reachable from its roots, each
      once and every parent before its child; none of them is on a cycle. */
  lemma WalkFlattens<K(!new)>(g: K -> File<K>, roots: seq<K>)
    requires WalkOf(g, roots, false).Ok?
    ensures var order := WalkOf(g, roots, false).value.order;
            && (forall i, j | 0 <= i < j < |order| :: order[i] != order[j])
            && (forall k :: k in order <==> Reaches(g, roots, k))
            && (forall i | 0 <= i < |order| :: Resolved(g, order[i], order[..i]))
    ensures forall path :: Path(g, path) && |path| > 1 && Reaches(g, roots, path[0]) ==> path[0] != path[|path| - 1]
  {
    var s := WalkEnds(g, roots);
    forall k | Reaches(g, roots, k) ensures k in s.order {
      var at := ReachedIsListed(g, roots, s, k);
    }
    forall path | Path(g, path) && |path| > 1 && Reaches(g, roots, path[0]) ensures path[0] != path[|path| - 1] {
      var at := ReachedIsListed(g, roots, s, path[0]);
      PathDescends(g, s, path, at);
    }
  }

  /** Whatever a file extends, however far up, stands before it. */
  lemma AncestorsStandBefore<K(!new)>(g: K -> File<K>, roots: seq<K>, path: seq<K>)
    requires WalkOf(g, roots, false).Ok? && Path(g, path) && |path| > 1 && Reaches(g, roots, path[0])
    ensures var order := WalkOf(g, roots, false).value.order;
            exists a, b | 0 <= a < b < |order| :: order[a] == path[|path| - 1] && order[b] == path[0]
  {
    var s := WalkEnds(g, roots);
    var b := ReachedIsListed(g, roots, s, path[0]);
    PathDescends(g, s, path, b);
  }

  /** A walk that fails gives a true reason: a cycle it reports is one, a chain too deep
      is that deep, and a file too many is reachable with 64 others. */
  lemma WalkFaultsAreReal<K(!new)>(g: K -> File<K>, roots: seq<K>)
    requires WalkOf(g, roots, false).Err?
    ensures Real(g, roots, WalkOf(g, roots, false).error)
  {
    EmptyIsGood(g, roots);
    WalkIsSound(g, roots, State([], {}, []), roots, false);
  }

  /* ----- how many files a walk may load ----- */

  ghost predicate Within<K>(s: State<K>, strict: bool) {
    |s.stack| <= MAX_DEPTH && s.Size() <= if strict then MAX_FILES else MAX_FILES + MAX_DEPTH - 1
  }

  lemma {:induction false} VisitStaysWithin<K(!new)>(g: K -> File<K>, s: State<K>, file: K, strict: bool)
    requires Within(s, strict)
    ensures Visited(g, s, file, strict).Ok? ==> Within(Visited(g, s, file, strict).value, strict)
    decreases MAX_DEPTH - |s.stack|, 0
  {
    if file !in s.stack && file !in s.seen && |s.stack| < MAX_DEPTH && !Full(s, strict) && g(file).Loaded? {
      VisitAllStaysWithin(g, s.(stack := s.stack + [file]), file, g(file).parents, strict);
    }
  }

  lemma {:induction false} VisitAllStaysWithin<K(!new)>(g: K -> File<K>, s: State<K>, of: K, parents: seq<Option<K>>,
      strict: bool)
    requires Within(s, strict)
    ensures VisitedAll(g, s, of, parents, strict).Ok? ==> Within(VisitedAll(g, s, of, parents, strict).value, strict)
    decreases MAX_DEPTH - |s.stack|, 1 + |parents|
  {
    if parents != [] && parents[0].Some? {
      VisitStaysWithin(g, s, parents[0].value, strict);
      var t := Visited(g, s, parents[0].value, strict);
      if t.Ok? {
        VisitAllStaysWithin(g, t.value, of, parents[1..], strict);
      }
    }
  }

  lemma {:induction false} WalkStaysWithin<K(!new)>(g: K -> File<K>, s: State<K>, roots: seq<K>, strict: bool)
    requires Within(s, strict)
    ensures Walked(g, s, roots, strict).Ok? ==> Within(Walked(g, s, roots, strict).value, strict)
    decreases |roots|
  {
    if roots != [] {
      VisitStaysWithin(g, s, roots[0], strict);
      var t := Visited(g, s, roots[0], strict);
      if t.Ok? {
        WalkStaysWithin(g, t.value, roots[1..], strict);
      }
    }
  }

  /** A file still being read is not finished. */
  ghost predicate Apart<K>(s: State<K>) {
    forall k :: k in s.stack ==> k !in s.seen
  }

  /** Visiting never makes the walk smaller, and the two ways of counting agree
      exactly on visits that end with no more than `MAX_FILES` files done or open. */
  ghost predicate Agree<K>(s: State<K>, lax: Result<State<K>, Fault<K>>, strict: Result<State<K>, Fault<K>>) {
    && (lax.Ok? ==> s.Size() <= lax.value.Size() && Apart(lax.value))
    && (lax.Ok? && lax.value.Size() <= MAX_FILES ==> strict == lax)
    && (strict.Ok? ==> lax == strict)
  }

  lemma {:induction false} VisitAgrees<K(!new)>(g: K -> File<K>, s: State<K>, file: K)
    requires Apart(s)
    ensures Agree(s, Visited(g, s, file, false), Visited(g, s, file, true))
    decreases MAX_DEPTH - |s.stack|, 0
  {
    if file !in s.stack && file !in s.seen && |s.stack| < MAX_DEPTH && !Full(s, false) && g(file).Loaded? {
      var pushed := s.(stack := s.stack + [file]);
      VisitAllAgrees(g, pushed, file, g(file).parents);
      var below := VisitedAll(g, pushed, file, g(file).parents, false);
      if below.Ok? {
        Popped(s, below.value, file);
      }
    }
  }

  lemma Popped<K>(s: State<K>, below: State<K>, file: K)
    requires Apart(below) && below.stack == s.stack + [file] && file !in s.stack
    ensures var t := State(s.stack, below.seen + {file}, below.order + [file]);
            Apart(t) && t.Size() == below.Size()
  {
    StackStays(s, below, file);
  }

  lemma {:induction false} VisitAllAgrees<K(!new)>(g: K -> File<K>, s: State<K>, of: K, parents: seq<Option<K>>)
    requires Apart(s)
    ensures Agree(s, VisitedAll(g, s, of, parents, false), VisitedAll(g, s, of, parents, true))
    decreases MAX_DEPTH - |s.stack|, 1 + |parents|
  {
    if parents != [] && parents[0].Some? {
      VisitAgrees(g, s, parents[0].value);
      var t := Visited(g, s, parents[0].value, false);
      if t.Ok? {
        VisitAllAgrees(g, t.value, of, parents[1..]);
      }
    }
  }

  lemma {:induction false} WalkAgrees<K(!new)>(g: K -> File<K>, s: State<K>, roots: seq<K>)
    requires Apart(s)
    ensures Agree(s, Walked(g, s, roots, false), Walked(g, s, roots, true))
    decreases |roots|
  {
    if roots != [] {
      VisitAgrees(g, s, roots[0]);
      var t := Visited(g, s, roots[0], false);
      if t.Ok? {
        WalkAgrees(g, t.value, roots[1..]);
      }
    }
  }

  /** A walk that succeeds loads at most 71 files, and keeps to the documented 64
      exactly when it also succeeds with the files still being read counted. */
  lemma FilesBound<K(!new)>(g: K -> File<K>, roots: seq<K>)
    requires WalkOf(g, roots, false).Ok?
    ensures |WalkOf(g, roots, false).value.order| <= MAX_FILES + MAX_DEPTH - 1
    ensures |WalkOf(g, roots, false).value.order| <= MAX_FILES <==> WalkOf(g, roots, true).Ok?
    ensures WalkOf(g, roots, true).Ok? ==> WalkOf(g, roots, true) == WalkOf(g, roots, false)
  {
    var start: State<K> := State([], {}, []);
    EmptyIsGood(g, roots);
    WalkIsSound(g, roots, start, roots, false);
    WalkStaysWithin(g, start, roots, false);
    WalkStaysWithin(g, start, roots, true);
    WalkAgrees(g, start, roots);
  }

  /* ----- how deep a chain may be ----- */

  lemma {:induction false} PathFits<K(!new)>(g: K -> File<K>, s: State<K>, path: seq<K>, at: nat)
    requires Finished(g, s) && Path(g, path) && at < |s.order| && s.order[at] == path[0]
    ensures |path| <= at + 1
    decreases |path|
  {
    if |path| > 1 {
      assert Edge(g, path[0], path[1]) && Resolved(g, s.order[at], s.order[..at]);
      var next :| 0 <= next < at && s.order[next] == path[1];
      TailIsPath(g, path);
      PathFits(g, s, path[1..], next);
    }
  }

  lemma TailIsPath<K>(g: K -> File<K>, path: seq<K>)
    requires Path(g, path) && |path| > 1
    ensures Path(g, path[1..])
  {
    forall i | 0 <= i < |path[1..]| - 1 ensures Edge(g, path[1..][i], path[1..][i + 1]) {
      assert Edge(g, path[i + 1], path[i + 2]);
    }
  }

  /** The depth check sees only the files being read, and a finished file is not
      checked again, so what bounds a chain is the number of files. */
  lemma DepthBound<K(!new)>(g: K -> File<K>, roots: seq<K>, path: seq<K>)
    requires WalkOf(g, roots, false).Ok? && Path(g, path) && Reaches(g, roots, path[0])
    ensures |path| <= |WalkOf(g, roots, false).value.order| <= MAX_FILES + MAX_DEPTH - 1
  {
    FilesBound(g, roots);
    var s := WalkEnds(g, roots);
    var at := ReachedIsListed(g, roots, s, path[0]);
    PathFits(g, s, path, at);
  }

  /** The greatest height among the parents, 0 with none. */
  function Tallest<K(==)>(parents: seq<Option<K>>, heights: map<K, nat>): nat {
    if parents == [] then 0
    else
      var before, last := Tallest(parents[..|parents| - 1], heights), parents[|parents| - 1];
      if last.Some? && last.value in heights && heights[last.value] > before then heights[last.value] else before
  }

  /** One pass over a walk's order: a file is one higher than the highest it extends. */
  function Heights<K(==)>(g: K -> File<K>, order: seq<K>): map<K, nat> {
    if order == [] then map[]
    else
      var before, last := Heights(g, order[..|order| - 1]), order[|order| - 1];
      before[last := 1 + if g(last).Loaded? then Tallest(g(last).parents, before) else 0]
  }

  lemma {:induction false} TallestIs<K(!new)>(parents: seq<Option<K>>, heights: map<K, nat>)
    ensures forall p | Some(p) in parents && p in heights :: heights[p] <= Tallest(parents, heights)
    ensures Tallest(parents, heights) > 0 ==>
              exists p | Some(p) in parents && p in heights :: heights[p] == Tallest(parents, heights)
  {
    if parents != [] {
      var init, last := parents[..|parents| - 1], parents[|parents| - 1];
      assert parents == init + [last];
      TallestIs(init, heights);
    }
  }

  ghost predicate Flattened<K>(g: K -> File<K>, order: seq<K>) {
    && (forall i, j | 0 <= i < j < |order| :: order[i] != order[j])
    && forall i | 0 <= i < |order| :: Resolved(g, order[i], order[..i])
  }

  lemma FlattenedBefore<K>(g: K -> File<K>, order: seq<K>)
    requires Flattened(g, order) && order != []
    ensures Flattened(g, order[..|order| - 1])
    ensures order[|order| - 1] !in order[..|order| - 1]
    ensures Resolved(g, order[|order| - 1], order[..|order| - 1])
  {
    var init := order[..|order| - 1];
    forall i | 0 <= i < |init| ensures Resolved(g, init[i], init[..i]) {
      assert init[..i] == order[..i] && init[i] == order[i];
    }
  }

  lemma {:induction false} HeightsKnown<K(!new)>(g: K -> File<K>, order: seq<K>)
    ensures forall k :: k in Heights(g, order) <==> k in order
  {
    if order != [] {
      HeightsKnown(g, order[..|order| - 1]);
      assert order == order[..|order| - 1] + [order[|order| - 1]];
    }
  }

  /** No chain from a file is longer than its height, and one is that long. */
  lemma {:induction false} HeightIsDepth<K(!new)>(g: K -> File<K>, order: seq<K>, file: K) returns (longest: seq<K>)
    requires Flattened(g, order) && file in order
    ensures file in Heights(g, order)
    ensures Path(g, longest) && longest[0] == file && |longest| == Heights(g, order)[file]
    ensures forall path | Path(g, path) && path[0] == file :: |path| <= Heights(g, order)[file]
    decreases |order|, 0
  {
    var init, last := order[..|order| - 1], order[|order| - 1];
    FlattenedBefore(g, order);
    HeightsKnown(g, init);
    assert order == init + [last];
    if file != last {
      longest := HeightIsDepth(g, init, file);
    } else {
      longest := LastHeight(g, init, file);
    }
  }

  lemma {:induction false} LastHeight<K(!new)>(g: K -> File<K>, order: seq<K>, file: K) returns (longest: seq<K>)
    requires Flattened(g, order) && file !in order && Resolved(g, file, order)
    ensures var height := 1 + Tallest(g(file).parents, Heights(g, order));
            && Path(g, longest) && longest[0] == file && |longest| == height
            && forall path | Path(g, path) && path[0] == file :: |path| <= height
    decreases |order|, 1
  {
    var parents, heights := g(file).parents, Heights(g, order);
    TallestIs(parents, heights);
    HeightsKnown(g, order);
    if Tallest(parents, heights) == 0 {
      longest := [file];
    } else {
      var p :| Some(p) in parents && p in heights && heights[p] == Tallest(parents, heights);
      var above := HeightIsDepth(g, order, p);
      longest := [file] + above;
      assert Edge(g, file, p);
      PathGrows(g, file, above);
    }
    forall path | Path(g, path) && path[0] == file ensures |path| <= 1 + Tallest(parents, heights) {
      if |path| > 1 {
        assert Edge(g, path[0], path[1]);
        TailIsPath(g, path);
        var above := HeightIsDepth(g, order, path[1]);
        assert |path[1..]| <= heights[path[1]];
      }
    }
  }

  lemma PathGrows<K>(g: K -> File<K>, file: K, above: seq<K>)
    requires Path(g, above) && Edge(g, file, above[0])
    ensures Path(g, [file] + above)
  {
    var path := [file] + above;
    forall i | 0 <= i < |path| - 1 ensures Edge(g, path[i], path[i + 1]) {
      if i > 0 {
        assert Edge(g, above[i - 1], above[i]);
      }
    }
  }

  /** At most `d` files can be gone through from `file`, itself included: what a look at
      the files a few entries deep tells before anything is walked. */
  predicate Low<K(==)>(g: K -> File<K>, file: K, d: nat) {
    d > 0 && (g(file).Loaded? ==> forall p | p in g(file).parents && p.Some? :: Low(g, p.value, d - 1))
  }

  ghost predicate Shallow<K(!new)>(g: K -> File<K>, file: K, d: nat) {
    forall path | Path(g, path) && path[0] == file :: |path| <= d
  }

  /** In every graph, finite or not and with or without cycles. */
  lemma {:induction false} LowIffShallow<K(!new)>(g: K -> File<K>, file: K, d: nat)
    ensures Low(g, file, d) <==> Shallow(g, file, d)
    decreases d
  {
    assert Path(g, [file]);
    if d > 0 {
      if Low(g, file, d) {
        forall path | Path(g, path) && path[0] == file ensures |path| <= d {
          if |path| > 1 {
            assert Edge(g, path[0], path[1]);
            TailIsPath(g, path);
            LowIffShallow(g, path[1], d - 1);
            assert |path[1..]| <= d - 1;
          }
        }
      }
      if Shallow(g, file, d) && g(file).Loaded? {
        forall p | p in g(file).parents && p.Some? ensures Low(g, p.value, d - 1) {
          ParentIsShallow(g, file, p.value, d);
          LowIffShallow(g, p.value, d - 1);
        }
      }
    }
  }

  lemma ParentIsShallow<K(!new)>(g: K -> File<K>, file: K, parent: K, d: nat)
    requires d > 0 && Shallow(g, file, d) && Edge(g, file, parent)
    ensures Shallow(g, parent, d - 1)
  {
    forall path | Path(g, path) && path[0] == parent ensures |path| <= d - 1 {
      PathGrows(g, file, path);
      assert ([file] + path)[0] == file;
    }
  }

  /** So whether the chains from the roots keep to eight files can be told from the
      graph, before any walk. */
  lemma DepthKeptIffLow<K(!new)>(g: K -> File<K>, roots: seq<K>)
    ensures (forall r | r in roots :: Shallow(g, r, MAX_DEPTH)) <==> (forall r | r in roots :: Low(g, r, MAX_DEPTH))
  {
    forall r | r in roots ensures Low(g, r, MAX_DEPTH) <==> Shallow(g, r, MAX_DEPTH) {
      LowIffShallow(g, r, MAX_DEPTH);
    }
  }

  lemma RootIsLowIff<K(!new)>(g: K -> File<K>, order: seq<K>, root: K)
    requires Flattened(g, order) && root in order
    ensures root in Heights(g, order) && (Shallow(g, root, MAX_DEPTH) <==> Heights(g, order)[root] <= MAX_DEPTH)
  {
    var longest := HeightIsDepth(g, order, root);
  }

  /** And after one that succeeds, from the roots' heights. */
  lemma HeightsTellDepth<K(!new)>(g: K -> File<K>, roots: seq<K>, root: K)
    requires WalkOf(g, roots, false).Ok? && root in roots
    ensures var heights := Heights(g, WalkOf(g, roots, false).value.order);
            root in heights && (Shallow(g, root, MAX_DEPTH) <==> heights[root] <= MAX_DEPTH)
  {
    var s := WalkEnds(g, roots);
    RootIsLowIff(g, s.order, root);
  }

  /* ----- the bounds are reached ----- */

  /** File 0 extends 1 to 64. Each of 2 to 63 extends the one before, and 64 begins a
      chain up to 70, which extends 63. */
  function Wide(k: nat): File<nat> {
    if k == 0 then Loaded(Entries(1))
    else if 64 <= k < 70 then Loaded([Some(k + 1)])
    else if k == 70 then Loaded([Some(63)])
    else if 2 <= k < 64 then Loaded([Some(k - 1)])
    else Loaded([])
  }

  function Entries(from: nat): seq<Option<nat>>
    requires from <= 65
    decreases 65 - from
  {
    if from == 65 then [] else [Some(from)] + Entries(from + 1)
  }

  ghost predicate LowDone(s: State<nat>, next: nat) {
    |s.seen| == |s.order| == next - 1 && forall k :: k in s.seen <==> 1 <= k < next
  }

  /** A file whose one parent is finished is finished at once. */
  lemma OneParentDone(s: State<nat>, k: nat, parent: nat)
    requires Wide(k) == Loaded([Some(parent)]) && parent in s.seen && parent !in s.stack && parent != k
    requires k !in s.stack && k !in s.seen && |s.stack| < MAX_DEPTH && |s.seen| < MAX_FILES
    ensures Visited(Wide, s, k, false) == Ok(State(s.stack, s.seen + {k}, s.order + [k]))
  {
    var pushed := s.(stack := s.stack + [k]);
    assert [Some(parent)][1..] == [];
    assert Visited(Wide, pushed, parent, false) == Ok(pushed);
    assert VisitedAll(Wide, pushed, k, [], false) == Ok(pushed);
    assert VisitedAll(Wide, pushed, k, [Some(parent)], false) == Ok(pushed);
  }

  lemma {:induction false} ChainBelow(s: State<nat>, k: nat)
    requires 64 <= k <= 70 && LowDone(s, 64) && |s.stack| == k - 63
    requires forall x :: x in s.stack ==> x == 0 || 64 <= x < k
    ensures var r := Visited(Wide, s, k, false);
            r.Ok? && |r.value.order| == 63 + (71 - k)
    decreases 70 - k
  {
    if k < 70 {
      var pushed := s.(stack := s.stack + [k]);
      ChainBelow(pushed, k + 1);
      assert [Some(k + 1)][1..] == [];
      var t := Visited(Wide, pushed, k + 1, false);
      assert VisitedAll(Wide, t.value, k, [], false) == t;
      assert VisitedAll(Wide, pushed, k, [Some(k + 1)], false) == t;
    } else {
      OneParentDone(s, 70, 63);
    }
  }

  lemma LowFileDone(s: State<nat>, next: nat)
    requires 1 <= next < 64 && s.stack == [0] && LowDone(s, next)
    ensures Visited(Wide, s, next, false) == Ok(State(s.stack, s.seen + {next}, s.order + [next]))
  {
    if next > 1 {
      OneParentDone(s, next, next - 1);
    }
  }

  lemma {:induction false} LowThenChain(s: State<nat>, next: nat)
    requires 1 <= next <= 64 && s.stack == [0] && LowDone(s, next)
    ensures var r := VisitedAll(Wide, s, 0, Entries(next), false);
            r.Ok? && |r.value.order| == 70
    decreases 64 - next
  {
    assert Entries(next)[1..] == Entries(next + 1);
    if next == 64 {
      ChainBelow(s, 64);
    } else {
      LowFileDone(s, next);
      LowThenChain(State(s.stack, s.seen + {next}, s.order + [next]), next + 1);
    }
  }

  /** The documented 64 files can be passed: this walk succeeds and loads 71. */
  lemma SeventyOneFiles()
    ensures WalkOf(Wide, [0], false).Ok? && |WalkOf(Wide, [0], false).value.order| == 71
  {
    var start: State<nat> := State([], {}, []);
    LowThenChain(State([0], {}, []), 1);
    assert start.stack + [0] == [0];
    var r := Visited(Wide, start, 0, false);
    assert r.Ok?;
    assert [0][1..] == [];
    assert Walked(Wide, r.value, [], false) == r;
  }

  /** From 0 to 64, up to 70, across to 63 and down to 1. */
  function Along(i: nat): nat
    requires i < 71
  {
    if i == 0 then 0 else if i <= 7 then 63 + i else 71 - i
  }

  lemma {:induction false} EntriesHave(from: nat, k: nat)
    requires from <= k < 65
    ensures Some(k) in Entries(from)
    decreases k - from
  {
    if from < k {
      EntriesHave(from + 1, k);
    }
  }

  lemma AlongStep(i: nat)
    requires i < 70
    ensures Edge(Wide, Along(i), Along(i + 1))
  {
    if i == 0 {
      EntriesHave(1, 64);
    } else {
      assert Wide(Along(i)) == Loaded([Some(Along(i + 1))]);
      assert [Some(Along(i + 1))][0] == Some(Along(i + 1));
    }
  }

  /** And the documented depth of 8 too: in the same walk one chain is 71 files deep. */
  lemma SeventyOneDeep() returns (path: seq<nat>)
    ensures WalkOf(Wide, [0], false).Ok? && Path(Wide, path) && path[0] == 0 && |path| == 71
  {
    SeventyOneFiles();
    path := seq(71, i requires 0 <= i < 71 => Along(i));
    forall i | 0 <= i < 70 ensures Edge(Wide, path[i], path[i + 1]) {
      AlongStep(i);
    }
  }
}
