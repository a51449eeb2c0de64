/** The three-colour depth-first walk over exact source dependencies, as a
    function of an abstract graph, and what it decides. */
module SourceGraph {
  import opened Wrappers

  datatype ErrorCode =
    | InvalidSnapshot | InvalidPolicy | NoRequestedSources | TargetNotSelected
    | UnknownSource | DuplicateSource | CrossProjectSource | StaleSource
    | BasisMismatch | UnknownDependency | DependencyCycle | DisclosureDenied
    | DisclosureUnknown | FutureContamination | PrivateSource
    | AlternativeNotSelected | HistoryNotSelected | DirectoryOnlySource
    | InvalidDescriptor

  /** Outcome of a validation step; checks run in order and the first refusal wins. */
  datatype Check = Pass | Refused(code: ErrorCode) {
    function Then(next: Check): Check {
      if Refused? then this else next
    }
  }

  datatype Visit = Visiting | Done

  /** A node carries the refusal of the basis or disclosure policy, if any. */
  datatype Node = Node(verdict: Check, deps: seq<string>)

  datatype Graph = Graph(nodes: map<string, Node>) {
    /** Every dependency resolves to a node. */
    ghost predicate Closed() {
      forall h :: h in nodes ==> Known(nodes[h].deps)
    }

    ghost predicate Known(hs: seq<string>) {
      forall i :: 0 <= i < |hs| ==> hs[i] in nodes
    }
  }

  datatype State = State(visits: map<string, Visit>, order: seq<string>)

  const START := State(map[], [])

  function Walk(g: Graph, h: string, st: State): (r: Result<State, ErrorCode>)
    requires g.Closed() && h in g.nodes && st.visits.Keys <= g.nodes.Keys
    ensures r.Ok? ==> st.visits.Keys + {h} <= r.value.visits.Keys <= g.nodes.Keys
    decreases g.nodes.Keys - st.visits.Keys, 0
  {
    if h in st.visits then
      if st.visits[h] == Visiting then Err(DependencyCycle) else Ok(st)
    else if g.nodes[h].verdict.Refused? then
      Err(g.nodes[h].verdict.code)
    else
      assert h in g.nodes.Keys - st.visits.Keys && h !in g.nodes.Keys - Open(st, h).visits.Keys;
      match WalkAll(g, g.nodes[h].deps, Open(st, h))
      case Err(e) => Err(e)
      case Ok(after) => Ok(Close(after, h))
  }

  function WalkAll(g: Graph, hs: seq<string>, st: State): (r: Result<State, ErrorCode>)
    requires g.Closed() && g.Known(hs) && st.visits.Keys <= g.nodes.Keys
    ensures r.Ok? ==> st.visits.Keys <= r.value.visits.Keys <= g.nodes.Keys
    decreases g.nodes.Keys - st.visits.Keys, |hs|
  {
    if hs == [] then Ok(st)
    else
      match Walk(g, hs[0], st)
      case Err(e) => Err(e)
      case Ok(next) => WalkAll(g, hs[1..], next)
  }

  /** Continue a walk at one more handle, unless it was already refused. */
  function WalkOn(g: Graph, h: string, soFar: Result<State, ErrorCode>): Result<State, ErrorCode>
    requires g.Closed() && h in g.nodes && (soFar.Ok? ==> soFar.value.visits.Keys <= g.nodes.Keys)
  {
    if soFar.Err? then soFar else Walk(g, h, soFar.value)
  }

  function Open(st: State, h: string): State {
    st.(visits := st.visits[h := Visiting])
  }

  function Close(st: State, h: string): State {
    State(st.visits[h := Done], st.order + [h])
  }

  /** The step the dependency loop takes: one more handle after those already walked. */
  lemma WalkAllSnoc(g: Graph, hs: seq<string>, x: string, st: State)
    requires g.Closed() && g.Known(hs) && x in g.nodes && st.visits.Keys <= g.nodes.Keys
    ensures g.Known(hs + [x])
    ensures WalkAll(g, hs + [x], st) == WalkOn(g, x, WalkAll(g, hs, st))
    decreases |hs|
  {
    if hs == [] {
      assert hs + [x] == [x];
    } else {
      assert (hs + [x])[1..] == hs[1..] + [x];
      var first := Walk(g, hs[0], st);
      if first.Ok? {
        WalkAllSnoc(g, hs[1..], x, first.value);
      }
    }
  }

  lemma WalkAllNext(g: Graph, hs: seq<string>, i: nat, st: State)
    requires g.Closed() && g.Known(hs) && st.visits.Keys <= g.nodes.Keys && i < |hs|
    ensures WalkAll(g, hs[..i + 1], st) == WalkOn(g, hs[i], WalkAll(g, hs[..i], st))
  {
    assert hs[..i + 1] == hs[..i] + [hs[i]];
    WalkAllSnoc(g, hs[..i], hs[i], st);
  }

  lemma WalkNone(g: Graph, st: State)
    requires g.Closed() && st.visits.Keys <= g.nodes.Keys
    ensures WalkAll(g, [], st) == Ok(st)
  {
  }

  /** The cases of one walk. */
  lemma WalkCases(g: Graph, h: string, st: State)
    requires g.Closed() && h in g.nodes && st.visits.Keys <= g.nodes.Keys
    ensures h in st.visits ==>
      Walk(g, h, st) == if st.visits[h] == Visiting then Err(DependencyCycle) else Ok(st)
    ensures h !in st.visits && g.nodes[h].verdict.Refused? ==> Walk(g, h, st) == Err(g.nodes[h].verdict.code)
    ensures h !in st.visits && g.nodes[h].verdict.Pass? ==>
      && Open(st, h).visits.Keys <= g.nodes.Keys
      && (var walked := WalkAll(g, g.nodes[h].deps, Open(st, h));
          Walk(g, h, st) == if walked.Ok? then Ok(Close(walked.value, h)) else walked)
  {
    hide WalkAll;
  }

  /** A refusal among the first n handles is the refusal of the whole list. */
  lemma {:induction false} WalkAllStops(g: Graph, hs: seq<string>, n: nat, st: State)
    requires g.Closed() && g.Known(hs) && st.visits.Keys <= g.nodes.Keys && n <= |hs|
    requires WalkAll(g, hs[..n], st).Err?
    ensures WalkAll(g, hs, st) == WalkAll(g, hs[..n], st)
    decreases |hs| - n
  {
    if n == |hs| {
      assert hs[..n] == hs;
    } else {
      WalkAllNext(g, hs, n, st);
      WalkAllStops(g, hs, n + 1, st);
    }
  }

  lemma WalkAllWhole(g: Graph, hs: seq<string>, st: State)
    requires g.Closed() && g.Known(hs) && st.visits.Keys <= g.nodes.Keys
    ensures WalkAll(g, hs[..|hs|], st) == WalkAll(g, hs, st)
  {
    assert hs[..|hs|] == hs;
  }

  // ----- Reachability, stated without the walk -----

  ghost predicate IsPath(g: Graph, p: seq<string>) {
    p != [] && g.Known(p)
    && forall i :: 0 <= i < |p| - 1 ==> p[i + 1] in g.nodes[p[i]].deps
  }

  ghost predicate Reach(g: Graph, a: string, b: string) {
    exists p :: IsPath(g, p) && p[0] == a && p[|p| - 1] == b
  }

  ghost predicate ReachFrom(g: Graph, roots: seq<string>, b: string) {
    exists a :: a in roots && Reach(g, a, b)
  }

  /** A nonempty chain of dependencies leads from a to b. */
  ghost predicate DependsOn(g: Graph, a: string, b: string)
    requires a in g.nodes
  {
    exists d :: d in g.nodes[a].deps && Reach(g, d, b)
  }

  /** x is allowed by both policies and does not depend on itself. */
  ghost predicate Sound(g: Graph, x: string)
    requires x in g.nodes
  {
    g.nodes[x].verdict.Pass? && !DependsOn(g, x, x)
  }

  lemma ReachSelf(g: Graph, a: string)
    requires a in g.nodes
    ensures Reach(g, a, a)
  {
    assert IsPath(g, [a]);
  }

  lemma ReachTrans(g: Graph, a: string, b: string, c: string)
    requires Reach(g, a, b) && Reach(g, b, c)
    ensures Reach(g, a, c)
  {
    var p :| IsPath(g, p) && p[0] == a && p[|p| - 1] == b;
    var q :| IsPath(g, q) && q[0] == b && q[|q| - 1] == c;
    var r := p + q[1..];
    assert IsPath(g, r) && r[0] == a && r[|r| - 1] == c;
  }

  lemma DepReach(g: Graph, a: string, d: string, b: string)
    requires a in g.nodes && d in g.nodes[a].deps && Reach(g, d, b)
    ensures Reach(g, a, b)
  {
    var p :| IsPath(g, p) && p[0] == d && p[|p| - 1] == b;
    var r := [a] + p;
    assert IsPath(g, r) && r[0] == a && r[|r| - 1] == b;
  }

  // ----- What the walk keeps -----

  predicate NoDuplicates(s: seq<string>) {
    forall i, j :: 0 <= i < j < |s| ==> s[i] != s[j]
  }

  /** Every dependency stands before its dependant. */
  ghost predicate DepsFirst(g: Graph, order: seq<string>)
    requires g.Known(order)
  {
    forall i, d :: 0 <= i < |order| && d in g.nodes[order[i]].deps ==> d in order[..i]
  }

  ghost predicate Allowed(g: Graph, order: seq<string>)
    requires g.Known(order)
  {
    forall i :: 0 <= i < |order| ==> g.nodes[order[i]].verdict.Pass?
  }

  ghost predicate Inv(g: Graph, st: State) {
    && g.Closed() && st.visits.Keys <= g.nodes.Keys && g.Known(st.order)
    && (forall h :: h in st.order <==> h in st.visits && st.visits[h] == Done)
    && NoDuplicates(st.order) && DepsFirst(g, st.order) && Allowed(g, st.order)
  }

  ghost function Pending(st: State): set<string> {
    set h | h in st.visits && st.visits[h] == Visiting
  }

  /** after extends before, finishing only handles reached from the roots. */
  ghost predicate Grown(g: Graph, before: State, roots: seq<string>, after: State) {
    && Inv(g, after) && before.order <= after.order && Pending(after) == Pending(before)
    && (forall h :: h in roots ==> h in after.order)
    && (forall x :: x in after.order ==> x in before.order || ReachFrom(g, roots, x))
  }

  lemma {:induction false} WalkGrows(g: Graph, h: string, st: State)
    requires Inv(g, st) && h in g.nodes && Walk(g, h, st).Ok?
    ensures Grown(g, st, [h], Walk(g, h, st).value)
    decreases g.nodes.Keys - st.visits.Keys, 0
  {
    if h !in st.visits {
      var deps, inside := g.nodes[h].deps, Open(st, h);
      assert Inv(g, inside);
      WalkAllGrows(g, deps, inside);
      var after := WalkAll(g, deps, inside).value;
      CloseGrows(g, h, st, after);
    } else {
      assert st.visits[h] == Done;
    }
  }

  lemma CloseGrows(g: Graph, h: string, st: State, after: State)
    requires Inv(g, st) && h in g.nodes && h !in st.visits && g.nodes[h].verdict.Pass?
    requires Grown(g, Open(st, h), g.nodes[h].deps, after)
    ensures Grown(g, st, [h], Close(after, h))
  {
    var closed := Close(after, h);
    assert h in Pending(Open(st, h));
    assert h in Pending(after);
    assert h !in after.order;
    forall i, d | 0 <= i < |closed.order| && d in g.nodes[closed.order[i]].deps
      ensures d in closed.order[..i]
    {
      if i < |after.order| {
        assert d in after.order[..i] && closed.order[..i] == after.order[..i];
      } else {
        assert closed.order[..i] == after.order;
      }
    }
    assert forall x :: x in closed.order <==> x in after.order || x == h;
    assert Pending(closed) == Pending(st) by {
      assert Pending(Open(st, h)) == Pending(st) + {h};
      assert Pending(closed) == Pending(after) - {h};
    }
    forall x | x in closed.order
      ensures x in st.order || ReachFrom(g, [h], x)
    {
      assert h in [h];
      if x == h {
        ReachSelf(g, h);
      } else if x !in st.order {
        var d :| d in g.nodes[h].deps && Reach(g, d, x);
        DepReach(g, h, d, x);
      }
    }
  }

  lemma {:induction false} WalkAllGrows(g: Graph, hs: seq<string>, st: State)
    requires Inv(g, st) && g.Known(hs) && WalkAll(g, hs, st).Ok?
    ensures Grown(g, st, hs, WalkAll(g, hs, st).value)
    decreases g.nodes.Keys - st.visits.Keys, |hs|
  {
    if hs != [] {
      WalkGrows(g, hs[0], st);
      var next := Walk(g, hs[0], st).value;
      WalkAllGrows(g, hs[1..], next);
      var after := WalkAll(g, hs[1..], next).value;
      forall x | x in after.order
        ensures x in st.order || ReachFrom(g, hs, x)
      {
        if x in next.order {
          if x !in st.order {
            assert ReachFrom(g, [hs[0]], x);
          }
        } else {
          var a :| a in hs[1..] && Reach(g, a, x);
          assert a in hs;
        }
      }
      assert forall h :: h in hs ==> h == hs[0] || h in hs[1..];
      assert hs[0] in [hs[0]];
    }
  }

  // ----- Why a walk is refused -----

  /** The refusal e is explained by a source reached from h. */
  ghost predicate Explains(g: Graph, h: string, x: string, e: ErrorCode) {
    && Reach(g, h, x) && x in g.nodes
    && (g.nodes[x].verdict == Refused(e) || (e == DependencyCycle && DependsOn(g, x, x)))
  }

  ghost predicate PendingLeadTo(g: Graph, st: State, h: string)
    requires st.visits.Keys <= g.nodes.Keys
  {
    forall v :: v in Pending(st) ==> DependsOn(g, v, h)
  }

  lemma {:induction false} WalkRefused(g: Graph, h: string, st: State)
    requires Inv(g, st) && h in g.nodes && PendingLeadTo(g, st, h)
    requires Walk(g, h, st).Err?
    ensures exists x :: Explains(g, h, x, Walk(g, h, st).error)
    decreases g.nodes.Keys - st.visits.Keys, 0
  {
    ReachSelf(g, h);
    var e := Walk(g, h, st).error;
    if h in st.visits {
      assert h in Pending(st);
      assert Explains(g, h, h, e);
    } else if g.nodes[h].verdict.Refused? {
      assert Explains(g, h, h, e);
    } else {
      var deps, inside := g.nodes[h].deps, Open(st, h);
      assert Inv(g, inside);
      forall d | d in deps
        ensures PendingLeadTo(g, inside, d)
      {
        ReachSelf(g, d);
        DepReach(g, h, d, d);
        forall v | v in Pending(inside)
          ensures DependsOn(g, v, d)
        {
          if v != h {
            assert v in Pending(st);
            var c :| c in g.nodes[v].deps && Reach(g, c, h);
            ReachTrans(g, c, h, d);
          }
        }
      }
      WalkAllRefused(g, deps, inside);
      var d, x :| d in deps && Explains(g, d, x, e);
      DepReach(g, h, d, x);
      assert Explains(g, h, x, e);
    }
  }

  lemma {:induction false} WalkAllRefused(g: Graph, hs: seq<string>, st: State)
    requires Inv(g, st) && g.Known(hs)
    requires forall h :: h in hs ==> PendingLeadTo(g, st, h)
    requires WalkAll(g, hs, st).Err?
    ensures exists h, x :: h in hs && Explains(g, h, x, WalkAll(g, hs, st).error)
    decreases g.nodes.Keys - st.visits.Keys, |hs|
  {
    var first := Walk(g, hs[0], st);
    if first.Err? {
      WalkRefused(g, hs[0], st);
      var x :| Explains(g, hs[0], x, first.error);
      assert hs[0] in hs && Explains(g, hs[0], x, WalkAll(g, hs, st).error);
    } else {
      WalkGrows(g, hs[0], st);
      assert forall h :: h in hs[1..] ==> h in hs;
      WalkAllRefused(g, hs[1..], first.value);
      var h, x :| h in hs[1..] && Explains(g, h, x, WalkAll(g, hs[1..], first.value).error);
      assert h in hs && Explains(g, h, x, WalkAll(g, hs, st).error);
    }
  }

  // ----- Exactness -----

  /** Nothing reached from a finished list lies outside it or after its start. */
  lemma {:induction false} ReachStaysBefore(g: Graph, order: seq<string>, i: nat, p: seq<string>)
    requires g.Known(order) && DepsFirst(g, order) && i < |order|
    requires IsPath(g, p) && p[0] == order[i]
    ensures exists j :: 0 <= j <= i && order[j] == p[|p| - 1]
    decreases |p|
  {
    if |p| > 1 {
      assert p[1] in g.nodes[p[0]].deps;
      assert p[1] in order[..i];
      var k :| 0 <= k < i && order[k] == p[1];
      ReachStaysBefore(g, order, k, p[1..]);
    }
  }

  lemma FinishedIsAcyclic(g: Graph, order: seq<string>, x: string)
    requires g.Known(order) && DepsFirst(g, order) && NoDuplicates(order) && x in order
    ensures x in g.nodes && !DependsOn(g, x, x)
  {
    var i :| 0 <= i < |order| && order[i] == x;
    if DependsOn(g, x, x) {
      var d :| d in g.nodes[x].deps && Reach(g, d, x);
      assert d in order[..i];
      var k :| 0 <= k < i && order[k] == d;
      var p :| IsPath(g, p) && p[0] == d && p[|p| - 1] == x;
      ReachStaysBefore(g, order, k, p);
    }
  }

  lemma FinishedIsClosed(g: Graph, order: seq<string>, a: string, x: string)
    requires g.Known(order) && DepsFirst(g, order) && a in order && Reach(g, a, x)
    ensures x in order
  {
    var i :| 0 <= i < |order| && order[i] == a;
    var p :| IsPath(g, p) && p[0] == a && p[|p| - 1] == x;
    ReachStaysBefore(g, order, i, p);
  }

  /** The list a walk must emit: each reached source once, dependencies first. */
  ghost predicate ExactOrder(g: Graph, roots: seq<string>, order: seq<string>) {
    && g.Known(order) && NoDuplicates(order) && DepsFirst(g, order)
    && (forall x :: x in order <==> ReachFrom(g, roots, x))
  }

  /** The walk succeeds exactly when every source reached from the selection is
      allowed and none depends on itself, and then emits the exact order. */
  lemma WalkIsExact(g: Graph, roots: seq<string>)
    requires g.Closed() && g.Known(roots)
    ensures WalkAll(g, roots, START).Ok?
       <==> forall x :: ReachFrom(g, roots, x) ==> x in g.nodes && Sound(g, x)
    ensures WalkAll(g, roots, START).Ok?
        ==> ExactOrder(g, roots, WalkAll(g, roots, START).value.order)
    ensures WalkAll(g, roots, START).Err?
        ==> exists h, x :: h in roots && Explains(g, h, x, WalkAll(g, roots, START).error)
  {
    assert Inv(g, START);
    assert Pending(START) == {};
    var r := WalkAll(g, roots, START);
    if r.Ok? {
      WalkAllGrows(g, roots, START);
      var order := r.value.order;
      forall x | ReachFrom(g, roots, x)
        ensures x in order && x in g.nodes && Sound(g, x)
      {
        var a :| a in roots && Reach(g, a, x);
        FinishedIsClosed(g, order, a, x);
        FinishedIsAcyclic(g, order, x);
      }
      assert forall x :: x in order ==> x !in START.order;
    } else {
      WalkAllRefused(g, roots, START);
      var h, x :| h in roots && Explains(g, h, x, r.error);
      assert ReachFrom(g, roots, x);
    }
  }

  /** Selecting fewer sources keeps success. */
  lemma WalkSmallerSelection(g: Graph, roots: seq<string>, fewer: seq<string>)
    requires g.Closed() && g.Known(roots) && (forall h :: h in fewer ==> h in roots)
    requires WalkAll(g, roots, START).Ok?
    ensures g.Known(fewer) && WalkAll(g, fewer, START).Ok?
  {
    WalkIsExact(g, roots);
    assert g.Known(fewer) by {
      forall i | 0 <= i < |fewer| ensures fewer[i] in g.nodes { assert fewer[i] in roots; }
    }
    WalkIsExact(g, fewer);
  }

  function AllDone(order: seq<string>): (visits: map<string, Visit>)
    ensures forall h :: h in visits <==> h in order
    ensures forall h :: h in visits ==> visits[h] == Done
  {
    map h | h in order :: Done
  }

  lemma {:induction false} AllAlreadyDone(g: Graph, hs: seq<string>, st: State)
    requires g.Closed() && g.Known(hs) && st.visits.Keys <= g.nodes.Keys
    requires forall h :: h in hs ==> h in st.visits && st.visits[h] == Done
    ensures WalkAll(g, hs, st) == Ok(st)
    decreases |hs|
  {
    if hs != [] {
      assert hs[0] in hs;
      assert forall h :: h in hs[1..] ==> h in hs;
      AllAlreadyDone(g, hs[1..], st);
    }
  }

  /** Walking a finished order again reproduces it, element by element. */
  lemma {:induction false} RewalkPrefix(g: Graph, order: seq<string>, n: nat)
    requires g.Closed() && g.Known(order) && n <= |order|
    requires NoDuplicates(order) && DepsFirst(g, order) && Allowed(g, order)
    ensures WalkAll(g, order[..n], START) == Ok(State(AllDone(order[..n]), order[..n]))
    decreases n
  {
    if n > 0 {
      var hs, h := order[..n - 1], order[n - 1];
      assert order[..n] == hs + [h];
      hide Walk, WalkAll, AllDone, DepsFirst, Allowed, NoDuplicates;
      RewalkPrefix(g, order, n - 1);
      RewalkStep(g, order, n - 1);
      WalkAllSnoc(g, hs, h, START);
    }
  }

  lemma RewalkStep(g: Graph, order: seq<string>, n: nat)
    requires g.Closed() && g.Known(order) && n < |order|
    requires NoDuplicates(order) && DepsFirst(g, order) && Allowed(g, order)
    ensures Walk(g, order[n], State(AllDone(order[..n]), order[..n]))
         == Ok(State(AllDone(order[..n + 1]), order[..n + 1]))
  {
    var h, st := order[n], State(AllDone(order[..n]), order[..n]);
    assert h !in order[..n];
    AllAlreadyDone(g, g.nodes[h].deps, Open(st, h));
    assert order[..n + 1] == order[..n] + [h];
    assert Close(Open(st, h), h).visits == AllDone(order[..n + 1]);
  }

  lemma RewalkIsIdentity(g: Graph, roots: seq<string>)
    requires g.Closed() && g.Known(roots) && WalkAll(g, roots, START).Ok?
    ensures var order := WalkAll(g, roots, START).value.order;
            g.Known(order) && WalkAll(g, order, START).Ok?
            && WalkAll(g, order, START).value.order == order
  {
    assert Inv(g, START);
    WalkAllGrows(g, roots, START);
    var order := WalkAll(g, roots, START).value.order;
    RewalkPrefix(g, order, |order|);
    assert order[..|order|] == order;
  }

  /** Relaxed verdicts over the same dependencies. */
  ghost predicate NoStricter(g: Graph, relaxed: Graph) {
    && g.nodes.Keys == relaxed.nodes.Keys
    && (forall h :: h in g.nodes ==> g.nodes[h].deps == relaxed.nodes[h].deps)
    && (forall h :: h in g.nodes && g.nodes[h].verdict.Pass? ==> relaxed.nodes[h].verdict.Pass?)
  }

  lemma {:induction false} RelaxedWalk(g: Graph, relaxed: Graph, h: string, st: State)
    requires g.Closed() && relaxed.Closed() && NoStricter(g, relaxed)
    requires h in g.nodes && st.visits.Keys <= g.nodes.Keys && Walk(g, h, st).Ok?
    ensures Walk(relaxed, h, st) == Walk(g, h, st)
    decreases g.nodes.Keys - st.visits.Keys, 0
  {
    if h !in st.visits {
      assert h in g.nodes.Keys - st.visits.Keys && h !in g.nodes.Keys - Open(st, h).visits.Keys;
      RelaxedWalkAll(g, relaxed, g.nodes[h].deps, Open(st, h));
    }
  }

  /** A walk that succeeds keeps its exact result when policies only relax. */
  lemma {:induction false} RelaxedWalkAll(g: Graph, relaxed: Graph, hs: seq<string>, st: State)
    requires g.Closed() && relaxed.Closed() && NoStricter(g, relaxed)
    requires g.Known(hs) && st.visits.Keys <= g.nodes.Keys && WalkAll(g, hs, st).Ok?
    ensures relaxed.Known(hs) && WalkAll(relaxed, hs, st) == WalkAll(g, hs, st)
    decreases g.nodes.Keys - st.visits.Keys, |hs|
  {
    if hs != [] {
      RelaxedWalk(g, relaxed, hs[0], st);
      RelaxedWalkAll(g, relaxed, hs[1..], Walk(g, hs[0], st).value);
    }
  }
}
