/**
 The dependency graph of a plan and the check it must pass before the first write: every dependency
 names a task of the plan, a sequential plan only depends backwards, and there is no cycle.
 */
module DependencyGraph {

  /** `g[t]` lists the tasks that `t` depends on. */
  type Graph = map<string, seq<string>>

  ghost predicate Distinct<T>(s: seq<T>) {
    forall i, j :: 0 <= i < j < |s| ==> s[i] != s[j]
  }

  predicate Known(g: Graph) {
    forall t | t in g :: forall d | d in g[t] :: d in g
  }

  predicate Edge(g: Graph, t: string, d: string) {
    t in g && d in g[t]
  }

  ghost predicate Walk(g: Graph, w: seq<string>) {
    forall i, j :: 0 <= i < |w| && j == i + 1 < |w| ==> Edge(g, w[i], w[j])
  }

  /** A walk along dependencies that comes back to the task it left. */
  ghost predicate Cycle(g: Graph, w: seq<string>) {
    |w| >= 2 && Walk(g, w) && w[0] == w[|w| - 1]
  }

  ghost predicate Acyclic(g: Graph) {
    forall w :: !Cycle(g, w)
  }

  /** In a sequential plan every dependency of the i-th task stands strictly before it. */
  ghost predicate Backward(order: seq<string>, g: Graph) {
    forall i | 0 <= i < |order| && order[i] in g :: forall d | d in g[order[i]] :: d in order[..i]
  }

  ghost predicate TopologicalOrder(g: Graph, p: seq<string>) {
    && Distinct(p)
    && (forall t :: t in p <==> t in g)
    && Backward(p, g)
  }

  // ---- a topological order excludes cycles ---------------------------------------------------

  ghost predicate Ranked(g: Graph, rank: map<string, nat>) {
    && rank.Keys == g.Keys
    && forall t, d | Edge(g, t, d) && d in g :: rank[d] < rank[t]
  }

  ghost function Position(p: seq<string>, t: string): (i: nat)
    requires t in p
    ensures i < |p| && p[i] == t && t !in p[..i]
  {
    if p[0] == t then 0 else 1 + Position(p[1..], t)
  }

  lemma OrderGivesRank(g: Graph, p: seq<string>) returns (rank: map<string, nat>)
    requires TopologicalOrder(g, p)
    ensures Ranked(g, rank)
    ensures forall t | t in g :: rank[t] == Position(p, t)
  {
    rank := map t | t in g :: Position(p, t);
    forall t, d | Edge(g, t, d) && d in g ensures rank[d] < rank[t] {
      var i := Position(p, t);
      assert d in p[..i];
      var j :| 0 <= j < i && p[j] == d;
      var k := Position(p, d);
      assert p[k] == p[j];
    }
  }

  lemma {:induction false} WalkDescends(g: Graph, rank: map<string, nat>, w: seq<string>, n: nat)
    requires Known(g) && Ranked(g, rank) && Walk(g, w) && n < |w| && w[0] in g
    ensures w[n] in g && rank[w[n]] + n <= rank[w[0]]
  {
    if n > 0 {
      WalkDescends(g, rank, w, n - 1);
      assert Edge(g, w[n - 1], w[n]);
    }
  }

  lemma RankExcludesCycles(g: Graph, rank: map<string, nat>)
    requires Known(g) && Ranked(g, rank)
    ensures Acyclic(g)
  {
    forall w ensures !Cycle(g, w) {
      if Cycle(g, w) {
        assert Edge(g, w[0], w[1]);
        WalkDescends(g, rank, w, |w| - 1);
      }
    }
  }

  // ---- a set of tasks that all wait on each other contains a cycle ------------------------------

  ghost predicate WaitsOnItself(g: Graph, s: set<string>) {
    s <= g.Keys && forall t {:trigger WaitsInside(g, s, t)} | t in s :: WaitsInside(g, s, t)
  }

  ghost predicate WaitsInside(g: Graph, s: set<string>, t: string) {
    exists d :: d in s && Edge(g, t, d)
  }

  ghost function WalkInside(g: Graph, s: set<string>, start: string, n: nat): (w: seq<string>)
    requires WaitsOnItself(g, s) && start in s
    ensures |w| == n + 1 && w[0] == start && Walk(g, w)
    ensures forall i | 0 <= i < |w| :: w[i] in s
    decreases n
  {
    if n == 0 then [start]
    else
      assert WaitsInside(g, s, start);
      var d :| d in s && Edge(g, start, d);
      [start] + WalkInside(g, s, d, n - 1)
  }

  lemma {:induction false} Pigeonhole<T>(w: seq<T>, s: set<T>)
    requires |w| > |s| && forall i | 0 <= i < |w| :: w[i] in s
    ensures exists i, j :: 0 <= i < j < |w| && w[i] == w[j]
  {
    var last := w[|w| - 1];
    if i :| 0 <= i < |w| - 1 && w[i] == last {
    } else {
      var rest := w[..|w| - 1];
      Pigeonhole(rest, s - {last});
      var i, j :| 0 <= i < j < |rest| && rest[i] == rest[j];
      assert w[i] == w[j];
    }
  }

  lemma RepeatClosesCycle(g: Graph, w: seq<string>, i: nat, j: nat)
    requires Walk(g, w) && i < j < |w| && w[i] == w[j]
    ensures !Acyclic(g)
  {
    var loop := w[i..j + 1];
    assert Cycle(g, loop);
  }

  lemma WaitingSetHasCycle(g: Graph, s: set<string>)
    requires WaitsOnItself(g, s) && s != {}
    ensures !Acyclic(g)
  {
    var start :| start in s;
    var w := WalkInside(g, s, start, |s|);
    Pigeonhole(w, s);
    var i, j :| 0 <= i < j < |w| && w[i] == w[j];
    RepeatClosesCycle(g, w, i, j);
  }

  // ---- Kahn's algorithm ---------------------------------------------------------------------------

  datatype Verdict =
    | Accepted
    | UnknownDependency(task: string, dependency: string)
    | ForwardDependency(task: string, dependency: string)
    | DependencyCycle(stuck: seq<string>)

  /** What is left of a task's dependencies once the tasks of `done` are discarded. */
  function Left(g: Graph, t: string, done: seq<string>): set<string>
    requires t in g
  {
    set d | d in g[t] && d !in done
  }

  ghost predicate KahnInv(g: Graph, remaining: map<string, set<string>>, done: seq<string>, ready: seq<string>) {
    && remaining.Keys == g.Keys
    && Distinct(done) && Distinct(ready)
    && (forall t | t in done :: t in g && t !in ready)
    && (forall t | t in ready :: t in g)
    && (forall t | t in g :: remaining[t] == Left(g, t, done))
    && (forall t | t in g :: t in done || t in ready <==> remaining[t] == {})
    && Backward(done, g)
  }

  /** The first pass: unknown dependencies, and forward ones in a sequential plan. */
  method CheckReferences(order: seq<string>, g: Graph, sequential: bool) returns (verdict: Verdict)
    requires Distinct(order) && forall t :: t in order <==> t in g
    ensures verdict.Accepted? <==> Known(g) && (sequential ==> Backward(order, g))
    ensures verdict.UnknownDependency? ==> Edge(g, verdict.task, verdict.dependency) && verdict.dependency !in g
    ensures verdict.ForwardDependency? ==>
              exists i | 0 <= i < |order| :: order[i] == verdict.task && Edge(g, order[i], verdict.dependency)
                                             && verdict.dependency !in order[..i]
    ensures !verdict.DependencyCycle?
  {
    for i := 0 to |order|
      invariant forall k | 0 <= k < i :: forall d | d in g[order[k]] :: d in g && (sequential ==> d in order[..k])
    {
      var deps := g[order[i]];
      for j := 0 to |deps|
        invariant forall d | d in deps[..j] :: d in g && (sequential ==> d in order[..i])
      {
        assert deps[j] in deps;
        if deps[j] !in g {
          return UnknownDependency(order[i], deps[j]);
        }
        if sequential && deps[j] !in order[..i] {
          assert !Backward(order, g);
          return ForwardDependency(order[i], deps[j]);
        }
      }
      assert deps[..|deps|] == deps;
    }
    verdict := Accepted;
  }

  /** One round of Kahn's loop: `current` is discarded from every dependency set, and the tasks that
      lose their last one are appended to the queue. */
  method Discard(order: seq<string>, g: Graph, current: string, ghost done: seq<string>,
                 before: map<string, set<string>>, queue: seq<string>)
    returns (remaining: map<string, set<string>>, ready: seq<string>)
    requires Distinct(order) && forall t :: t in order <==> t in g
    requires KahnInv(g, before, done, [current] + queue)
    ensures KahnInv(g, remaining, done + [current], ready)
  {
    hide KahnInv;
    remaining, ready := before, queue;
    PopCurrent(g, before, done, queue, current);
    for i := 0 to |order|
      invariant remaining.Keys == g.Keys
      invariant forall k | 0 <= k < i :: remaining[order[k]] == before[order[k]] - {current}
      invariant forall k | i <= k < |order| :: remaining[order[k]] == before[order[k]]
      invariant Distinct(ready) && current !in ready
      invariant forall t | t in ready :: t in g && t !in done
      invariant forall k | 0 <= k < i ::
                  before[order[k]] - {current} == {} ==> order[k] in done || order[k] == current || order[k] in ready
      invariant forall t | t in ready :: remaining[t] == {}
      invariant forall t | t in queue :: t in ready
    {
      var t := order[i];
      var dependencies := remaining[t];
      if current in dependencies {
        dependencies := dependencies - {current};
        remaining := remaining[t := dependencies];
        if dependencies == {} {
          ready := ready + [t];
        }
      }
    }
    DiscardedInv(order, g, before, remaining, done, queue, ready, current);
  }

  lemma PopCurrent(g: Graph, before: map<string, set<string>>, done: seq<string>, queue: seq<string>, current: string)
    requires KahnInv(g, before, done, [current] + queue)
    ensures before.Keys == g.Keys && current in g && current !in done && current !in queue && Distinct(queue)
    ensures forall t | t in queue :: t in g && t !in done
    ensures forall t | t in g :: before[t] == {} <==> t in done || t == current || t in queue
  {
    var ready := [current] + queue;
    assert ready[0] == current;
    forall i | 0 <= i < |queue| ensures queue[i] == ready[i + 1] { }
    assert forall t :: t in ready <==> t == current || t in queue;
  }

  lemma DiscardedInv(order: seq<string>, g: Graph, before: map<string, set<string>>, remaining: map<string,
                     set<string>>,
                     done: seq<string>, queue: seq<string>, ready: seq<string>, current: string)
    requires forall t :: t in order <==> t in g
    requires KahnInv(g, before, done, [current] + queue)
    requires remaining.Keys == g.Keys
    requires forall k | 0 <= k < |order| :: remaining[order[k]] == before[order[k]] - {current}
    requires Distinct(ready) && current !in ready && forall t | t in ready :: t in g && t !in done && remaining[t] == {}
    requires forall k | 0 <= k < |order| ::
               before[order[k]] - {current} == {} ==> order[k] in done || order[k] == current || order[k] in ready
    ensures KahnInv(g, remaining, done + [current], ready)
  {
    PopCurrent(g, before, done, queue, current);
    DoneStaysBackward(g, before, done, queue, current);
    var now := done + [current];
    forall t | t in g
      ensures remaining[t] == Left(g, t, now) && (t in now || t in ready <==> remaining[t] == {})
    {
      var k :| 0 <= k < |order| && order[k] == t;
      assert Left(g, t, now) == Left(g, t, done) - {current};
    }
  }

  lemma DoneStaysBackward(g: Graph, remaining: map<string, set<string>>, done: seq<string>, queue: seq<string>,
                          current: string)
    requires KahnInv(g, remaining, done, [current] + queue)
    ensures Backward(done + [current], g)
  {
    var now := done + [current];
    assert current in [current] + queue;
    assert Left(g, current, done) == {};
    forall i, d | 0 <= i < |now| && now[i] in g && d in g[now[i]] ensures d in now[..i] {
      if i < |done| {
        assert now[..i] == done[..i];
      } else {
        assert now[..i] == done;
        assert d !in Left(g, current, done);
      }
    }
  }

  lemma NextIsNew(g: Graph, remaining: map<string, set<string>>, done: seq<string>, ready: seq<string>)
    requires KahnInv(g, remaining, done, ready) && ready != []
    ensures ready[0] in g && ready[0] !in done
    ensures KahnInv(g, remaining, done, [ready[0]] + ready[1..])
  {
    assert ready == [ready[0]] + ready[1..];
  }

  /** When the queue runs dry early, the tasks left over all wait on one another. */
  lemma StuckTasksWait(order: seq<string>, g: Graph, remaining: map<string, set<string>>, done: seq<string>,
                       stuck: set<string>)
    requires Distinct(order) && (forall t :: t in order <==> t in g) && Known(g)
    requires KahnInv(g, remaining, done, []) && |done| != |order|
    requires stuck == set t | t in g && remaining[t] != {}
    ensures stuck != {} && WaitsOnItself(g, stuck)
  {
    SameSizeSameTasks(order, done, g);
    var missing :| missing in g && missing !in done;
    assert missing in stuck;
    forall t | t in stuck ensures WaitsInside(g, stuck, t) {
      var d :| d in remaining[t];
      assert remaining[t] == Left(g, t, done);
      assert Edge(g, t, d) && d in g && d !in done;
      assert d in stuck;
    }
  }

  /** The whole check.  It accepts a task list exactly when it can be scheduled; when it does, the
      order in which tasks left the queue is a topological order of all of them. */
  method ValidateDependencies(order: seq<string>, g: Graph, sequential: bool)
    returns (verdict: Verdict, ghost topological: seq<string>)
    requires Distinct(order) && forall t :: t in order <==> t in g
    ensures verdict.Accepted? <==> Known(g) && (sequential ==> Backward(order, g)) && Acyclic(g)
    ensures verdict.Accepted? ==> TopologicalOrder(g, topological)
    ensures verdict.DependencyCycle? ==>
              Known(g) && verdict.stuck != [] && WaitsOnItself(g, set t | t in verdict.stuck)
  {
    hide KahnInv, Acyclic, TopologicalOrder, Backward, Known, WaitsOnItself;
    topological := [];
    verdict := CheckReferences(order, g, sequential);
    if !verdict.Accepted? { return; }
    var remaining := map t | t in g :: (set d | d in g[t]);
    var ready := SelectReady(order, g, remaining);
    NothingScheduledYet(g, remaining, ready);
    var scheduled := 0;
    while ready != []
      invariant KahnInv(g, remaining, topological, ready)
      invariant scheduled == |topological|
      decreases g.Keys - set t | t in topological
    {
      var current := ready[0];
      NextIsNew(g, remaining, topological, ready);
      scheduled := scheduled + 1;
      remaining, ready := Discard(order, g, current, topological, remaining, ready[1..]);
      assert current in g.Keys - set t | t in topological;
      topological := topological + [current];
    }
    KahnKeys(g, remaining, topological, ready);
    if scheduled != |order| {
      var stuck := SelectStuck(order, g, remaining);
      ghost var waiting := set t | t in g && remaining[t] != {};
      assert waiting == set t | t in stuck;
      StuckTasksWait(order, g, remaining, topological, waiting);
      WaitingSetHasCycle(g, waiting);
      verdict := DependencyCycle(stuck);
    } else {
      EverythingScheduled(order, g, remaining, topological);
    }
  }

  lemma EverythingScheduled(order: seq<string>, g: Graph, remaining: map<string, set<string>>, done: seq<string>)
    requires Distinct(order) && (forall t :: t in order <==> t in g) && Known(g)
    requires KahnInv(g, remaining, done, []) && |done| == |order|
    ensures TopologicalOrder(g, done) && Acyclic(g)
  {
    SameSizeSameTasks(order, done, g);
    var rank := OrderGivesRank(g, done);
    RankExcludesCycles(g, rank);
  }

  lemma NothingScheduledYet(g: Graph, remaining: map<string, set<string>>, ready: seq<string>)
    requires remaining == (map t | t in g :: (set d | d in g[t])) && Distinct(ready)
    requires forall t :: t in ready <==> t in g && remaining[t] == {}
    ensures KahnInv(g, remaining, [], ready)
  {
  }

  lemma KahnKeys(g: Graph, remaining: map<string, set<string>>, done: seq<string>, ready: seq<string>)
    requires KahnInv(g, remaining, done, ready)
    ensures remaining.Keys == g.Keys
  {
  }

  /** The tasks of the declaration order without any dependency. */
  method SelectReady(order: seq<string>, g: Graph, remaining: map<string, set<string>>) returns (ready: seq<string>)
    requires Distinct(order) && (forall t :: t in order <==> t in g) && remaining.Keys == g.Keys
    ensures Distinct(ready)
    ensures forall t :: t in ready <==> t in g && remaining[t] == {}
  {
    ready := [];
    for i := 0 to |order|
      invariant Distinct(ready)
      invariant forall t :: t in ready <==> t in order[..i] && remaining[t] == {}
    {
      assert order[..i + 1] == order[..i] + [order[i]];
      if remaining[order[i]] == {} {
        ready := ready + [order[i]];
      }
    }
    assert order[..|order|] == order;
  }

  method SelectStuck(order: seq<string>, g: Graph, remaining: map<string, set<string>>) returns (stuck: seq<string>)
    requires (forall t :: t in order <==> t in g) && remaining.Keys == g.Keys
    ensures forall t :: t in stuck <==> t in g && remaining[t] != {}
  {
    stuck := [];
    for i := 0 to |order|
      invariant forall t :: t in stuck <==> t in order[..i] && remaining[t] != {}
    {
      assert order[..i + 1] == order[..i] + [order[i]];
      if remaining[order[i]] != {} {
        stuck := stuck + [order[i]];
      }
    }
    assert order[..|order|] == order;
  }

  lemma {:induction false} DistinctCount<T>(p: seq<T>, s: set<T>)
    requires Distinct(p) && forall t :: t in p <==> t in s
    ensures |p| == |s|
  {
    if p != [] {
      var last := p[|p| - 1];
      var rest := p[..|p| - 1];
      assert forall t :: t in p <==> t in rest || t == last;
      DistinctCount(rest, s - {last});
    } else {
      assert s == {};
    }
  }

  /** Kahn's count equals the task total exactly when every task left the queue. */
  lemma SameSizeSameTasks(order: seq<string>, done: seq<string>, g: Graph)
    requires Distinct(order) && (forall t :: t in order <==> t in g)
    requires Distinct(done) && forall t | t in done :: t in g
    ensures |done| == |order| <==> forall t :: t in done <==> t in g
  {
    DistinctCount(order, g.Keys);
    var seen := set t | t in done;
    DistinctCount(done, seen);
    assert seen <= g.Keys;
    if |done| == |order| {
      assert |g.Keys - seen| == |g.Keys| - |seen|;
      assert g.Keys - seen == {};
    } else {
      assert seen != g.Keys;
    }
  }
}
