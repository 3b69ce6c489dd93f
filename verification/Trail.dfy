/**
 The published trail of one plan.  Every transition is published as one event; replaying the events
 from the initial states gives the current ones, and each of them is a step of its table.
 */
module Trail {
  import opened Options
  import opened States
  import opened Records
  import opened Persistence
  import opened DependencyGraph
  import opened Schedule

  datatype Event =
    | TaskChanged(taskId: string, from: TaskState, to: TaskState, reason: Option<Reason>)
    | PlanChanged(planFrom: PlanState, planTo: PlanState, stop: Option<StopReason>)

  /** What the executor reported about the process, kept on the record. */
  datatype Exit = Exit(exitCode: Option<int>, timedOut: bool, recognised: bool)

  /** One task transition to persist and publish. */
  datatype Change = Change(taskId: string, to: TaskState, reason: Option<Reason>, exit: Option<Exit>)

  function Changed(t: TaskRecord, c: Change): TaskRecord {
    var r := if c.reason.Some? then t.(status := c.to, reason := c.reason) else t.(status := c.to);
    if c.exit.Some? then
      r.(exitCode := c.exit.value.exitCode, timedOut := c.exit.value.timedOut, recognised := c.exit.value.recognised)
    else r
  }

  ghost predicate OncePerTask(changes: seq<Change>) {
    forall i, j | 0 <= i < j < |changes| :: changes[i].taskId != changes[j].taskId
  }

  /** The changes of one batch concern different tasks of the plan, each by a step of the table. */
  ghost predicate Legal(tasks: Tasks, changes: seq<Change>) {
    && (forall i | 0 <= i < |changes| ::
          changes[i].taskId in tasks && TaskStep(tasks[changes[i].taskId].status, changes[i].to))
    && OncePerTask(changes)
  }

  lemma LegalMentionsTasks(tasks: Tasks, changes: seq<Change>)
    requires Legal(tasks, changes)
    ensures forall i | 0 <= i < |changes| :: changes[i].taskId in tasks
  {
  }

  function AllChanged(tasks: Tasks, changes: seq<Change>): (after: Tasks)
    requires forall i | 0 <= i < |changes| :: changes[i].taskId in tasks
    ensures SameDeclarations(tasks, after)
  {
    if changes == [] then tasks
    else
      var before := AllChanged(tasks, changes[..|changes| - 1]);
      var c := changes[|changes| - 1];
      before[c.taskId := Changed(before[c.taskId], c)]
  }

  ghost predicate Mentions(changes: seq<Change>, t: string) {
    exists i :: 0 <= i < |changes| && changes[i].taskId == t
  }

  lemma {:induction false} UnmentionedUnchanged(tasks: Tasks, changes: seq<Change>, t: string)
    requires forall i | 0 <= i < |changes| :: changes[i].taskId in tasks
    requires t in tasks && !Mentions(changes, t)
    ensures AllChanged(tasks, changes)[t] == tasks[t]
  {
    if changes != [] {
      var init := changes[..|changes| - 1];
      assert changes[|changes| - 1].taskId != t;
      UnmentionedUnchanged(tasks, init, t);
    }
  }

  lemma LastIsFresh(tasks: Tasks, changes: seq<Change>)
    requires Legal(tasks, changes) && changes != []
    ensures Legal(tasks, changes[..|changes| - 1])
    ensures AllChanged(tasks, changes[..|changes| - 1])[changes[|changes| - 1].taskId]
            == tasks[changes[|changes| - 1].taskId]
  {
    var n := |changes| - 1;
    var init := changes[..n];
    UnmentionedUnchanged(tasks, init, changes[n].taskId);
  }

  lemma LegalIsDistinct(tasks: Tasks, changes: seq<Change>)
    requires Legal(tasks, changes)
    ensures forall i, j | 0 <= i < j < |changes| :: changes[i].taskId != changes[j].taskId
  {
  }

  /** A batch changes each listed record once, from its state before the batch. */
  lemma {:induction false} AllChangedAt(tasks: Tasks, changes: seq<Change>, i: nat)
    requires Legal(tasks, changes) && i < |changes|
    ensures AllChanged(tasks, changes)[changes[i].taskId] == Changed(tasks[changes[i].taskId], changes[i])
  {
    hide Changed, Legal;
    LegalMentionsTasks(tasks, changes);
    LegalIsDistinct(tasks, changes);
    var n := |changes| - 1;
    var init := changes[..n];
    LastIsFresh(tasks, changes);
    if i < n {
      AllChangedAt(tasks, init, i);
      assert init[i] == changes[i];
    }
  }

  // ---- the trail ------------------------------------------------------------------------------------

  ghost predicate Replays(plan0: PlanState, tasks0: map<string, TaskState>, events: seq<Event>,
                          plan1: PlanState, tasks1: map<string, TaskState>)
    decreases |events|
  {
    if events == [] then plan0 == plan1 && tasks0 == tasks1
    else
      var before := events[..|events| - 1];
      match events[|events| - 1]
      case TaskChanged(t, from, to, _) =>
        t in tasks1 && tasks1[t] == to && TaskStep(from, to)
        && Replays(plan0, tasks0, before, plan1, tasks1[t := from])
      case PlanChanged(from, to, _) =>
        plan1 == to && PlanStep(from, to) && Replays(plan0, tasks0, before, from, tasks1)
  }

  function Events(tasks: Tasks, changes: seq<Change>): (events: seq<Event>)
    requires forall i | 0 <= i < |changes| :: changes[i].taskId in tasks
    ensures |events| == |changes|
    ensures forall i | 0 <= i < |changes| ::
              events[i] == TaskChanged(changes[i].taskId, tasks[changes[i].taskId].status, changes[i].to,
                                       changes[i].reason)
  {
    seq(|changes|, i requires 0 <= i < |changes| =>
      TaskChanged(changes[i].taskId, tasks[changes[i].taskId].status, changes[i].to, changes[i].reason))
  }

  lemma EventsSnoc(tasks: Tasks, changes: seq<Change>, earlier: seq<Event>)
    requires changes != [] && forall i | 0 <= i < |changes| :: changes[i].taskId in tasks
    ensures var n := |changes| - 1;
            var c := changes[n];
            earlier + Events(tasks, changes)
            == earlier + Events(tasks, changes[..n]) + [TaskChanged(c.taskId, tasks[c.taskId].status, c.to, c.reason)]
  {
    var n := |changes| - 1;
    var c := changes[n];
    assert Events(tasks, changes)
           == Events(tasks, changes[..n]) + [TaskChanged(c.taskId, tasks[c.taskId].status, c.to, c.reason)];
  }

  lemma OneMoreEvent(plan0: PlanState, tasks0: map<string, TaskState>, events: seq<Event>,
                     plan1: PlanState, tasks1: map<string, TaskState>, t: string, from: TaskState, to: TaskState,
                       reason: Option<Reason>)
    requires t in tasks1 && tasks1[t] == to && TaskStep(from, to)
    requires Replays(plan0, tasks0, events, plan1, tasks1[t := from])
    ensures Replays(plan0, tasks0, events + [TaskChanged(t, from, to, reason)], plan1, tasks1)
  {
    var all := events + [TaskChanged(t, from, to, reason)];
    assert all[..|all| - 1] == events;
  }

  lemma OneMorePlanEvent(plan0: PlanState, tasks0: map<string, TaskState>, events: seq<Event>,
                         plan1: PlanState, plan2: PlanState, tasks1: map<string, TaskState>, stop: Option<StopReason>)
    requires Replays(plan0, tasks0, events, plan1, tasks1) && PlanStep(plan1, plan2)
    ensures Replays(plan0, tasks0, events + [PlanChanged(plan1, plan2, stop)], plan2, tasks1)
  {
    var all := events + [PlanChanged(plan1, plan2, stop)];
    assert all[..|all| - 1] == events;
  }

  lemma StatusesUpdated(tasks: Tasks, t: string, r: TaskRecord)
    ensures Statuses(tasks[t := r]) == Statuses(tasks)[t := r.status]
  {
  }

  lemma StatusAt(tasks: Tasks, t: string)
    requires t in tasks
    ensures t in Statuses(tasks) && Statuses(tasks)[t] == tasks[t].status
  {
  }

  lemma ChangedStatus(r: TaskRecord, c: Change)
    ensures Changed(r, c).status == c.to
  {
  }

  /** Undoing the last change of a batch gives the states after the changes before it. */
  lemma LastChangeUndone(tasks: Tasks, changes: seq<Change>)
    requires Legal(tasks, changes) && changes != []
    ensures var n := |changes| - 1;
            var init, c := changes[..n], changes[n];
            && Legal(tasks, init) && c.taskId in tasks && TaskStep(tasks[c.taskId].status, c.to)
            && c.taskId in Statuses(AllChanged(tasks, changes))
            && Statuses(AllChanged(tasks, changes))[c.taskId] == c.to
            && Statuses(AllChanged(tasks, changes))[c.taskId := tasks[c.taskId].status]
               == Statuses(AllChanged(tasks, init))
  {
    hide Statuses, Changed;
    LastIsFresh(tasks, changes);
    var n := |changes| - 1;
    var c := changes[n];
    LegalMentionsTasks(tasks, changes);
    LegalMentionsTasks(tasks, changes[..n]);
    var before := AllChanged(tasks, changes[..n]);
    var from := tasks[c.taskId].status;
    StatusesUpdated(before, c.taskId, Changed(before[c.taskId], c));
    StatusAt(before, c.taskId);
    ChangedStatus(before[c.taskId], c);
    assert Statuses(before)[c.taskId := c.to][c.taskId := from] == Statuses(before);
  }

  /** Publishing one event per change, after the batch, extends the trail to the new states. */
  lemma {:induction false} BatchExtendsTrail(plan0: PlanState, tasks0: map<string, TaskState>, events: seq<Event>,
                                             plan1: PlanState, tasks: Tasks, changes: seq<Change>)
    requires Replays(plan0, tasks0, events, plan1, Statuses(tasks))
    requires Legal(tasks, changes)
    ensures forall i | 0 <= i < |changes| :: changes[i].taskId in tasks
    ensures Replays(plan0, tasks0, events + Events(tasks, changes), plan1, Statuses(AllChanged(tasks, changes)))
  {
    hide Replays, Statuses, Legal, SameDeclarations;
    LegalMentionsTasks(tasks, changes);
    if changes == [] {
      assert events + Events(tasks, changes) == events;
    } else {
      hide AllChanged;
      var n := |changes| - 1;
      var init, c := changes[..n], changes[n];
      LastChangeUndone(tasks, changes);
      BatchExtendsTrail(plan0, tasks0, events, plan1, tasks, init);
      EventsSnoc(tasks, changes, events);
      var from := tasks[c.taskId].status;
      OneMoreEvent(plan0, tasks0, events + Events(tasks, init), plan1, Statuses(AllChanged(tasks, changes)), c.taskId,
                   from, c.to, c.reason);
    }
  }

  /** From an initial state whose tasks and plan are all `PENDING`, a replayed trail only contains
      table-listed steps: no event leaves a terminal state. */
  lemma {:induction false} TrailIsLegal(plan0: PlanState, tasks0: map<string, TaskState>, events: seq<Event>,
                                        plan1: PlanState, tasks1: map<string, TaskState>, i: nat)
    requires Replays(plan0, tasks0, events, plan1, tasks1) && i < |events|
    ensures match events[i]
            case TaskChanged(_, from, to, _) => TaskStep(from, to) && !TaskTerminal(from)
            case PlanChanged(from, to, _) => PlanStep(from, to) && !PlanTerminal(from)
    decreases |events|
  {
    if i < |events| - 1 {
      var before := events[..|events| - 1];
      assert events[i] == before[i];
      match events[|events| - 1]
      case TaskChanged(t, from, to, _) => TrailIsLegal(plan0, tasks0, before, plan1, tasks1[t := from], i);
      case PlanChanged(from, to, _) => TrailIsLegal(plan0, tasks0, before, from, tasks1, i);
    }
  }

  // ---- the batch as the store sees it -----------------------------------------------------------------

  /** The blobs of the batch, then the new records. */
  function Batch(after: Tasks, changes: seq<Change>, blobs: seq<BlobRecord>): (ws: seq<Write>)
    requires forall i | 0 <= i < |changes| :: changes[i].taskId in after
    ensures |ws| == |blobs| + |changes|
    ensures forall i | 0 <= i < |blobs| :: ws[i] == SaveBlob(blobs[i])
    ensures forall i | 0 <= i < |changes| :: ws[|blobs| + i] == SaveTask(after[changes[i].taskId])
  {
    seq(|blobs|, i requires 0 <= i < |blobs| => SaveBlob(blobs[i]))
    + seq(|changes|, i requires 0 <= i < |changes| => SaveTask(after[changes[i].taskId]))
  }

  /** The store holds the current record of every task listed in `touched`. */
  ghost predicate Stored(touched: set<string>, tasks: Tasks, t: Tables) {
    forall id | id in touched :: id in tasks && Holds(t, tasks[id])
  }

  predicate Holds(t: Tables, r: TaskRecord) {
    TaskKey(r) in t.tasks && t.tasks[TaskKey(r)] == r
  }

  ghost predicate SavesOnlyBlobsAndTasks(ws: seq<Write>) {
    forall i | 0 <= i < |ws| :: ws[i].SaveBlob? || ws[i].SaveTask?
  }

  predicate Saves(w: Write, k: (string, string)) {
    w.SaveTask? && TaskKey(w.task) == k
  }

  lemma {:induction false} UnsavedStays(ws: seq<Write>, t: Tables, k: (string, string))
    requires SavesOnlyBlobsAndTasks(ws) && forall i | 0 <= i < |ws| :: !Saves(ws[i], k)
    ensures ApplyAll(ws, t).plans == t.plans
    ensures k in t.tasks ==> k in ApplyAll(ws, t).tasks && ApplyAll(ws, t).tasks[k] == t.tasks[k]
  {
    if ws != [] {
      assert !Saves(ws[|ws| - 1], k);
      UnsavedStays(ws[..|ws| - 1], t, k);
    }
  }

  lemma {:induction false} PlansStay(ws: seq<Write>, t: Tables)
    requires SavesOnlyBlobsAndTasks(ws)
    ensures ApplyAll(ws, t).plans == t.plans
  {
    if ws != [] {
      PlansStay(ws[..|ws| - 1], t);
    }
  }

  /** The last save of a record is the one that stays. */
  lemma {:induction false} LastSaveStays(ws: seq<Write>, t: Tables, i: nat, k: (string, string))
    requires SavesOnlyBlobsAndTasks(ws) && i < |ws| && Saves(ws[i], k)
    requires forall j | i < j < |ws| :: !Saves(ws[j], k)
    ensures k in ApplyAll(ws, t).tasks && ApplyAll(ws, t).tasks[k] == ws[i].task
    decreases |ws|
  {
    var n := |ws| - 1;
    if i < n {
      assert !Saves(ws[n], k);
      assert ws[..n][i] == ws[i];
      LastSaveStays(ws[..n], t, i, k);
    }
  }

  /** Every event is about a task of `touched`, or about the plan when `plan` allows it. */
  ghost predicate Announced(events: seq<Event>, touched: set<string>, plan: bool) {
    forall i | 0 <= i < |events| :: AnnouncedBy(events[i], touched, plan)
  }

  predicate AnnouncedBy(e: Event, touched: set<string>, plan: bool) {
    match e
    case TaskChanged(t, _, _, _) => t in touched
    case PlanChanged(_, _, _) => plan
  }

  lemma BatchIsAnnounced(events: seq<Event>, tasks: Tasks, changes: seq<Change>, touched: set<string>, plan: bool)
    requires Announced(events, touched, plan) && forall i | 0 <= i < |changes| :: changes[i].taskId in tasks
    ensures Announced(events + Events(tasks, changes), touched + ChangedIds(changes), plan)
  {
    var all, now := events + Events(tasks, changes), touched + ChangedIds(changes);
    forall i | 0 <= i < |all| ensures AnnouncedBy(all[i], now, plan) {
      if i < |events| {
        assert AnnouncedBy(events[i], touched, plan);
      } else {
        assert changes[i - |events|].taskId in ChangedIds(changes);
      }
    }
  }

  function ChangedIds(changes: seq<Change>): set<string> {
    set i | 0 <= i < |changes| :: changes[i].taskId
  }

  lemma BatchSaves(after: Tasks, changes: seq<Change>, blobs: seq<BlobRecord>)
    requires forall i | 0 <= i < |changes| :: changes[i].taskId in after
    ensures var ws := Batch(after, changes, blobs);
            && SavesOnlyBlobsAndTasks(ws)
            && (forall j | 0 <= j < |blobs| :: ws[j].SaveBlob?)
            && forall j | |blobs| <= j < |ws| :: ws[j] == SaveTask(after[changes[j - |blobs|].taskId])
  {
    var ws := Batch(after, changes, blobs);
    forall j | |blobs| <= j < |ws| ensures ws[j] == SaveTask(after[changes[j - |blobs|].taskId]) {
      assert ws[|blobs| + (j - |blobs|)] == ws[j];
    }
  }

  /** One record of the plan after the batch: the new one if it changed, the old one otherwise. */
  lemma RecordIsStored(order: seq<string>, tasks: Tasks, changes: seq<Change>, blobs: seq<BlobRecord>, t: Tables,
                       id: string)
    requires Declared(order, tasks) && Legal(tasks, changes) && id in tasks
    requires Mentions(changes, id) || Holds(t, tasks[id])
    ensures var after := AllChanged(tasks, changes); Holds(ApplyAll(Batch(after, changes, blobs), t), after[id])
  {
    hide ApplyAll, Changed, AllChanged, Batch;
    LegalMentionsTasks(tasks, changes);
    var after := AllChanged(tasks, changes);
    var ws := Batch(after, changes, blobs);
    BatchSaves(after, changes, blobs);
    var k := TaskKey(after[id]);
    assert forall u | u in after :: TaskKey(after[u]) == k ==> u == id;
    if Mentions(changes, id) {
      var i :| 0 <= i < |changes| && changes[i].taskId == id;
      assert ws[|blobs| + i] == SaveTask(after[id]);
      LastSaveStays(ws, t, |blobs| + i, k);
    } else {
      UnmentionedUnchanged(tasks, changes, id);
      UnsavedStays(ws, t, k);
    }
  }

  /** Once the batch is committed the store holds every record changed so far. */
  lemma BatchIsStored(order: seq<string>, tasks: Tasks, changes: seq<Change>, blobs: seq<BlobRecord>,
                      touched: set<string>, t: Tables)
    requires Declared(order, tasks) && Legal(tasks, changes) && Stored(touched, tasks, t)
    ensures var after := AllChanged(tasks, changes);
            var saved := ApplyAll(Batch(after, changes, blobs), t);
            Stored(touched + ChangedIds(changes), after, saved) && saved.plans == t.plans
  {
    hide ApplyAll, Changed, AllChanged, Batch, Holds, Declared;
    LegalMentionsTasks(tasks, changes);
    var after := AllChanged(tasks, changes);
    var ws := Batch(after, changes, blobs);
    BatchSaves(after, changes, blobs);
    PlansStay(ws, t);
    forall id | id in touched + ChangedIds(changes) ensures id in after && Holds(ApplyAll(ws, t), after[id]) {
      RecordIsStored(order, tasks, changes, blobs, t, id);
    }
  }

  /** The outputs stored after these were added, each under its own name. */
  function Added(stored: map<string, BlobRecord>, blobs: seq<BlobRecord>): map<string, BlobRecord> {
    if blobs == [] then stored
    else
      var n := |blobs| - 1;
      Added(stored, blobs[..n])[blobs[n].blobId := blobs[n]]
  }

  lemma {:induction false} FirstWritesAdd(ws: seq<Write>, blobs: seq<BlobRecord>, t: Tables, k: nat)
    requires |blobs| <= |ws| && k <= |ws|
    requires forall i | 0 <= i < |blobs| :: ws[i] == SaveBlob(blobs[i])
    requires forall i | |blobs| <= i < |ws| :: ws[i].SaveTask?
    ensures ApplyAll(ws[..k], t).blobs == Added(t.blobs, if k < |blobs| then blobs[..k] else blobs)
  {
    if k > 0 {
      FirstWritesAdd(ws, blobs, t, k - 1);
      assert ws[..k][..k - 1] == ws[..k - 1];
      if k <= |blobs| {
        assert blobs[..k][..k - 1] == blobs[..k - 1];
        assert k == |blobs| ==> blobs[..k] == blobs;
      }
    } else {
      assert blobs[..0] == [] && ws[..0] == [];
    }
  }

  lemma BatchAdds(after: Tasks, changes: seq<Change>, blobs: seq<BlobRecord>, t: Tables)
    requires forall i | 0 <= i < |changes| :: changes[i].taskId in after
    ensures ApplyAll(Batch(after, changes, blobs), t).blobs == Added(t.blobs, blobs)
  {
    var ws := Batch(after, changes, blobs);
    BatchSaves(after, changes, blobs);
    FirstWritesAdd(ws, blobs, t, |ws|);
    assert ws[..|ws|] == ws;
  }
}
