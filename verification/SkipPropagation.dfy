/**
 The worklist that skips, transitively, what depends on a task that will never complete.  It only walks
 tasks that may still be scheduled, and yet nothing doomed is left behind.
 */
module SkipPropagation {
  import opened Options
  import opened States
  import opened Records
  import opened DependencyGraph
  import opened Schedule
  import opened Trail
  import opened Settling

  /** `d` has been established as a dependency that will never complete: the root, or a task skipped
      in this propagation. */
  ghost predicate Lost(changes: seq<Change>, root: string, d: string) {
    d == root || Mentions(changes, d)
  }

  ghost predicate SkipChange(tasks: Tasks, root: string, changes: seq<Change>, c: Change)
    requires root in tasks
  {
    && c.taskId in tasks && Schedulable(tasks[c.taskId].status) && c.to.SKIPPED? && c.exit.None?
    && exists d :: SkipCause(tasks, root, changes, c, d)
  }

  ghost predicate SkipCause(tasks: Tasks, root: string, changes: seq<Change>, c: Change, d: string)
    requires root in tasks && c.taskId in tasks
  {
    && d in tasks[c.taskId].decl.dependsOn && Lost(changes, root, d)
    && c.reason == Some(SkipReason(if d == root then tasks[root].status else SKIPPED, d))
  }

  ghost predicate SkipsSound(tasks: Tasks, root: string, changes: seq<Change>)
    requires root in tasks
  {
    && (forall i | 0 <= i < |changes| :: SkipChange(tasks, root, changes, changes[i]))
    && (forall i, j | 0 <= i < j < |changes| :: changes[i].taskId != changes[j].taskId)
  }

  /** Every dependant of a lost task is skipped already, or that lost task still is in the worklist. */
  ghost predicate SkipsComplete(tasks: Tasks, root: string, changes: seq<Change>, worklist: set<string>) {
    forall t, d | t in tasks && Schedulable(tasks[t].status) && !Mentions(changes, t)
                  && d in tasks[t].decl.dependsOn && Lost(changes, root, d) :: d in worklist
  }

  lemma OneMoreSkip(tasks: Tasks, root: string, changes: seq<Change>, c: Change)
    requires root in tasks && SkipsSound(tasks, root, changes)
    requires SkipChange(tasks, root, changes, c) && !Mentions(changes, c.taskId)
    ensures SkipsSound(tasks, root, changes + [c])
    ensures forall t :: Mentions(changes + [c], t) <==> Mentions(changes, t) || t == c.taskId
  {
    var now := changes + [c];
    forall t ensures Mentions(now, t) <==> Mentions(changes, t) || t == c.taskId {
      if Mentions(changes, t) {
        var i :| 0 <= i < |changes| && changes[i].taskId == t;
        assert now[i].taskId == t;
      }
      assert now[|changes|].taskId == c.taskId;
    }
    forall i | 0 <= i < |now| ensures SkipChange(tasks, root, now, now[i]) {
      assert SkipChange(tasks, root, changes, now[i]);
      var d :| SkipCause(tasks, root, changes, now[i], d);
      assert SkipCause(tasks, root, now, now[i], d);
    }
  }

  /** The tasks still waiting in the worklist. */
  ghost function Names(worklist: seq<(string, TaskState)>): set<string> {
    set e | e in worklist :: e.0
  }

  ghost predicate WorklistSound(tasks: Tasks, root: string, changes: seq<Change>, worklist: seq<(string, TaskState)>)
    requires root in tasks
  {
    forall e | e in worklist ::
      e.1 == (if e.0 == root then tasks[root].status else SKIPPED) && Lost(changes, root, e.0)
  }

  /** Every dependant of `dependency` is skipped and put in the worklist in its turn. */
  method SkipRound(order: seq<string>, tasks: Tasks, root: string, dependency: string, state: TaskState,
                   before: seq<Change>, earlier: set<string>, rest: seq<(string, TaskState)>)
    returns (changes: seq<Change>, skipped: set<string>, worklist: seq<(string, TaskState)>)
    requires Declared(order, tasks) && root in tasks && !Schedulable(tasks[root].status)
    requires SkipsSound(tasks, root, before) && (forall t :: t in earlier <==> Mentions(before, t))
             && earlier <= tasks.Keys
    requires WorklistSound(tasks, root, before, [(dependency, state)] + rest)
    requires SkipsComplete(tasks, root, before, {dependency} + Names(rest))
    ensures SkipsSound(tasks, root, changes) && (forall t :: t in skipped <==> Mentions(changes, t))
            && skipped <= tasks.Keys
    ensures WorklistSound(tasks, root, changes, worklist)
    ensures SkipsComplete(tasks, root, changes, Names(worklist))
    ensures earlier <= skipped && (earlier == skipped ==> worklist == rest)
  {
    hide SkipsSound, SkipsComplete, WorklistSound, Mentions, Lost, SkipReason;
    changes, skipped, worklist := before, earlier, rest;
    FrontOfWorklist(tasks, root, before, dependency, state, rest);
    for i := 0 to |order|
      invariant SkipsSound(tasks, root, changes)
      invariant forall t :: t in skipped <==> Mentions(changes, t)
      invariant earlier <= skipped <= tasks.Keys && (earlier == skipped ==> worklist == rest)
      invariant WorklistSound(tasks, root, changes, worklist)
      invariant Lost(changes, root, dependency)
      invariant SkipsComplete(tasks, root, changes, {dependency} + Names(worklist))
      invariant forall t | t in order[..i] && Schedulable(tasks[t].status) && !Mentions(changes, t) ::
                  dependency !in tasks[t].decl.dependsOn
    {
      var t := order[i];
      assert order[..i + 1] == order[..i] + [t];
      if t !in skipped && Schedulable(tasks[t].status) && dependency in tasks[t].decl.dependsOn {
        var c := Change(t, SKIPPED, Some(SkipReason(state, dependency)), None);
        DirectDependant(tasks, root, changes, c, dependency);
        SkipGrows(tasks, root, changes, c, {dependency} + Names(worklist), worklist);
        assert {dependency} + Names(worklist + [(t, SKIPPED)]) == {dependency} + Names(worklist) + {t};
        changes := changes + [c];
        skipped := skipped + {t};
        worklist := worklist + [(t, SKIPPED)];
      }
    }
    assert order[..|order|] == order;
    RoundIsOver(order, tasks, root, changes, dependency, Names(worklist));
  }

  lemma FrontOfWorklist(tasks: Tasks, root: string, changes: seq<Change>, dependency: string, state: TaskState,
                        rest: seq<(string, TaskState)>)
    requires root in tasks && WorklistSound(tasks, root, changes, [(dependency, state)] + rest)
    ensures state == (if dependency == root then tasks[root].status else SKIPPED) && Lost(changes, root, dependency)
    ensures WorklistSound(tasks, root, changes, rest)
  {
    var worklist := [(dependency, state)] + rest;
    assert worklist[0] in worklist;
    assert forall e | e in rest :: e in worklist;
  }

  lemma DirectDependant(tasks: Tasks, root: string, changes: seq<Change>, c: Change, d: string)
    requires root in tasks && c.taskId in tasks && Schedulable(tasks[c.taskId].status) && Lost(changes, root, d)
    requires d in tasks[c.taskId].decl.dependsOn
    requires c == Change(c.taskId, SKIPPED, Some(SkipReason(if d == root then tasks[root].status else SKIPPED, d)),
                         None)
    ensures SkipChange(tasks, root, changes, c)
  {
    assert SkipCause(tasks, root, changes, c, d);
  }

  lemma RoundIsOver(order: seq<string>, tasks: Tasks, root: string, changes: seq<Change>, dependency: string,
                    waiting: set<string>)
    requires Declared(order, tasks) && SkipsComplete(tasks, root, changes, {dependency} + waiting)
    requires forall t | t in order && Schedulable(tasks[t].status) && !Mentions(changes, t) ::
               dependency !in tasks[t].decl.dependsOn
    ensures SkipsComplete(tasks, root, changes, waiting)
  {
  }

  /** One more skipped task: its own dependants wait for it in the worklist. */
  lemma SkipGrows(tasks: Tasks, root: string, changes: seq<Change>, c: Change, waiting: set<string>,
                  worklist: seq<(string, TaskState)>)
    requires root in tasks && !Schedulable(tasks[root].status)
    requires SkipsSound(tasks, root, changes) && SkipChange(tasks, root, changes, c) && !Mentions(changes, c.taskId)
    requires SkipsComplete(tasks, root, changes, waiting) && Names(worklist) <= waiting
    requires WorklistSound(tasks, root, changes, worklist)
    ensures SkipsSound(tasks, root, changes + [c])
    ensures forall t :: Mentions(changes + [c], t) <==> Mentions(changes, t) || t == c.taskId
    ensures forall d :: Lost(changes + [c], root, d) <==> Lost(changes, root, d) || d == c.taskId
    ensures Names(worklist + [(c.taskId, SKIPPED)]) == Names(worklist) + {c.taskId}
    ensures SkipsComplete(tasks, root, changes + [c], waiting + {c.taskId})
    ensures WorklistSound(tasks, root, changes + [c], worklist + [(c.taskId, SKIPPED)])
  {
    OneMoreSkip(tasks, root, changes, c);
    var longer := worklist + [(c.taskId, SKIPPED)];
    assert forall e :: e in longer <==> e in worklist || e == (c.taskId, SKIPPED);
    assert Names(longer) == Names(worklist) + {c.taskId} by {
      assert (c.taskId, SKIPPED) in longer;
      forall d | d in Names(worklist) ensures d in Names(longer) {
        var e :| e in worklist && e.0 == d;
        assert e in longer;
      }
    }
    forall t, d | t in tasks && Schedulable(tasks[t].status) && !Mentions(changes + [c], t)
                  && d in tasks[t].decl.dependsOn && Lost(changes + [c], root, d)
      ensures d in waiting + {c.taskId}
    {
      assert !Mentions(changes, t);
    }
  }

  /** The whole propagation from `root`. */
  method SkipList(order: seq<string>, tasks: Tasks, root: string) returns (changes: seq<Change>)
    requires Declared(order, tasks)
    requires root in tasks && TaskTerminal(tasks[root].status)
    ensures SkipsSound(tasks, root, changes) && SkipsComplete(tasks, root, changes, {})
  {
    changes := [];
    var skipped: set<string> := {};
    var worklist: seq<(string, TaskState)> := [(root, tasks[root].status)];
    assert Names(worklist) == {root} by { assert (root, tasks[root].status) in worklist; }
    while worklist != []
      invariant SkipsSound(tasks, root, changes)
      invariant forall t :: t in skipped <==> Mentions(changes, t)
      invariant skipped <= tasks.Keys
      invariant WorklistSound(tasks, root, changes, worklist)
      invariant SkipsComplete(tasks, root, changes, Names(worklist))
      decreases tasks.Keys - skipped, |worklist|
    {
      var (dependency, state) := worklist[0];
      var rest := worklist[1..];
      assert worklist == [(dependency, state)] + rest;
      assert Names(worklist) == {dependency} + Names(rest);
      changes, skipped, worklist := SkipRound(order, tasks, root, dependency, state, changes, skipped, rest);
    }
    assert Names(worklist) == {};
  }

  /** Applied as one batch, the list is exactly the closure: sound reasons, and nobody doomed is left. */
  lemma SkipListClosure(tasks: Tasks, root: string, changes: seq<Change>)
    requires root in tasks && TaskTerminal(tasks[root].status) && !tasks[root].status.COMPLETED?
    requires forall t, d | t in tasks && Schedulable(tasks[t].status) && Blame(tasks, t, d) :: d == root
    requires SkipsSound(tasks, root, changes) && SkipsComplete(tasks, root, changes, {})
    ensures Legal(tasks, changes) && SkippedClosure(tasks, AllChanged(tasks, changes))
  {
    var after := AllChanged(tasks, changes);
    SkipsAreLegal(tasks, root, changes);
    hide Mentions, SkipsSound, Legal, SkipsComplete, AllChanged;
    forall t | t in tasks
      ensures Mentions(changes, t) ==> SkippedAt(tasks, after, t)
      ensures !Mentions(changes, t) ==> after[t] == tasks[t]
    {
      if Mentions(changes, t) { SkippedRecord(tasks, root, changes, t); }
      else { UnmentionedUnchanged(tasks, changes, t); }
    }
    forall t | t in tasks && Mentions(changes, t) ensures RightlySkipped(after, t) {
      SkippedRightly(tasks, after, root, changes, t);
    }
    NobodyIsLeft(tasks, after, root, changes);
  }

  lemma NobodyIsLeft(tasks: Tasks, after: Tasks, root: string, changes: seq<Change>)
    requires root in tasks
    requires forall t, d | t in tasks && Schedulable(tasks[t].status) && Blame(tasks, t, d) :: d == root
    requires SkipsComplete(tasks, root, changes, {}) && after.Keys == tasks.Keys
    requires forall u | u in tasks :: if Mentions(changes, u) then SkippedAt(tasks, after, u) else after[u] == tasks[u]
    ensures NobodyDoomed(after)
  {
    forall t, d | t in after && Schedulable(after[t].status) ensures !Blame(after, t, d) {
      assert !Mentions(changes, t);
      if d in after && !Mentions(changes, d) {
        assert Blame(after, t, d) ==> Blame(tasks, t, d);
      }
      assert Lost(changes, root, d) ==> d !in tasks[t].decl.dependsOn;
    }
  }

  ghost predicate SkippedAt(tasks: Tasks, after: Tasks, t: string) {
    && t in tasks && t in after && Schedulable(tasks[t].status)
    && after[t] == tasks[t].(status := SKIPPED, reason := after[t].reason)
  }

  lemma SkipsAreLegal(tasks: Tasks, root: string, changes: seq<Change>)
    requires root in tasks && SkipsSound(tasks, root, changes)
    ensures Legal(tasks, changes)
  {
    forall i | 0 <= i < |changes|
      ensures changes[i].taskId in tasks && TaskStep(tasks[changes[i].taskId].status, changes[i].to)
    {
      assert SkipChange(tasks, root, changes, changes[i]);
    }
  }

  lemma SkippedRecord(tasks: Tasks, root: string, changes: seq<Change>, t: string)
    requires root in tasks && SkipsSound(tasks, root, changes) && Legal(tasks, changes) && Mentions(changes, t)
    ensures SkippedAt(tasks, AllChanged(tasks, changes), t)
    ensures exists i :: 0 <= i < |changes| && changes[i].taskId == t
                        && AllChanged(tasks, changes)[t].reason == changes[i].reason
  {
    var i :| 0 <= i < |changes| && changes[i].taskId == t;
    assert SkipChange(tasks, root, changes, changes[i]);
    AllChangedAt(tasks, changes, i);
  }

  lemma SkippedRightly(tasks: Tasks, after: Tasks, root: string, changes: seq<Change>, t: string)
    requires root in tasks && TaskTerminal(tasks[root].status) && !tasks[root].status.COMPLETED?
    requires SkipsSound(tasks, root, changes) && Legal(tasks, changes) && after == AllChanged(tasks, changes)
    requires forall u | u in tasks :: if Mentions(changes, u) then SkippedAt(tasks, after, u) else after[u] == tasks[u]
    requires Mentions(changes, t)
    ensures RightlySkipped(after, t)
  {
    SkippedRecord(tasks, root, changes, t);
    var i :| 0 <= i < |changes| && changes[i].taskId == t && after[t].reason == changes[i].reason;
    assert SkipChange(tasks, root, changes, changes[i]);
    var d :| SkipCause(tasks, root, changes, changes[i], d);
    assert !SkippedAt(tasks, after, root);
    if d != root {
      assert SkippedAt(tasks, after, d);
    }
    assert SkippedFor(after, t, d);
  }
}
