/**
 The store: typed upserts under savepoint transactions.  Each level snapshots everything on entry;
 a failure escaping a level restores that level's snapshot only.
 */
module Persistence {
  import opened Options
  import opened Records

  datatype Write =
    | SaveSession(session: SessionRecord)
    | SaveConversation(conversation: ConversationRecord)
    | SaveCycle(cycle: CycleRecord)
    | SavePlan(plan: PlanRecord)
    | SaveTask(task: TaskRecord)
    | SaveMessage(message: MessageRecord)
    | SaveBlob(blob: BlobRecord)

  /** A blob whose declared size is not its length is refused whatever the state of the disk. */
  predicate Refused(w: Write) {
    w.SaveBlob? && w.blob.sizeBytes != |w.blob.content|
  }

  function Apply(w: Write, t: Tables): Tables {
    match w
    case SaveSession(r) => t.(sessions := t.sessions[r.sessionId := r])
    case SaveConversation(r) => t.(conversations := t.conversations[r.conversationId := r])
    case SaveCycle(r) => t.(cycles := t.cycles[r.cycleId := r])
    case SavePlan(r) => t.(plans := t.plans[PlanKey(r) := r])
    case SaveTask(r) => t.(tasks := t.tasks[TaskKey(r) := r])
    case SaveMessage(r) => t.(messages := Upsert(t.messages, r))
    case SaveBlob(r) => t.(blobs := t.blobs[r.blobId := r])
  }

  function ApplyAll(ws: seq<Write>, t: Tables): Tables {
    if ws == [] then t else Apply(ws[|ws| - 1], ApplyAll(ws[..|ws| - 1], t))
  }

  lemma {:induction false} ApplyAllConcat(a: seq<Write>, b: seq<Write>, t: Tables)
    ensures ApplyAll(a + b, t) == ApplyAll(b, ApplyAll(a, t))
  {
    if b == [] {
      assert a + b == a;
    } else {
      assert (a + b)[..|a + b| - 1] == a + b[..|b| - 1];
      ApplyAllConcat(a, b[..|b| - 1], t);
    }
  }

  // ---- what a piece of code may do to the store --------------------------------------------------

  /** Writes, sequencing, `with store.transaction(): ...` and `try: ... except PersistenceError: pass`. */
  datatype Program =
    | Single(write: Write)
    | Then(first: Program, second: Program)
    | Transaction(body: Program)
    | Caught(attempt: Program)

  /** `next` numbers the writes attempted so far; `fails` names the attempts that the disk refuses. */
  datatype Result = Result(tables: Tables, ok: bool, next: nat)

  /** The intended meaning, without any snapshot: a failed transaction is worth nothing at all. */
  function Meaning(p: Program, t: Tables, n: nat, fails: set<nat>): (r: Result)
    ensures r.next > n
  {
    match p
    case Single(w) =>
      if n in fails || Refused(w) then Result(t, false, n + 1) else Result(Apply(w, t), true, n + 1)
    case Then(a, b) =>
      var r := Meaning(a, t, n, fails);
      if r.ok then Meaning(b, r.tables, r.next, fails) else r
    case Transaction(body) =>
      var r := Meaning(body, t, n, fails);
      if r.ok then r else Result(t, false, r.next)
    case Caught(body) =>
      var r := Meaning(body, t, n, fails);
      Result(r.tables, true, r.next)
  }

  /** The writes that outlive the program, in order. */
  function Survivors(p: Program, t: Tables, n: nat, fails: set<nat>): seq<Write> {
    match p
    case Single(w) => if n in fails || Refused(w) then [] else [w]
    case Then(a, b) =>
      var r := Meaning(a, t, n, fails);
      Survivors(a, t, n, fails) + (if r.ok then Survivors(b, r.tables, r.next, fails) else [])
    case Transaction(body) =>
      if Meaning(body, t, n, fails).ok then Survivors(body, t, n, fails) else []
    case Caught(body) => Survivors(body, t, n, fails)
  }

  /** Nothing but the surviving writes is left in the store, at any nesting of transactions and
      handlers and wherever the faults fall. */
  lemma {:induction false} OnlySurvivorsRemain(p: Program, t: Tables, n: nat, fails: set<nat>)
    ensures Meaning(p, t, n, fails).tables == ApplyAll(Survivors(p, t, n, fails), t)
  {
    match p
    case Single(w) =>
      assert ApplyAll([], t) == t;
      assert [w][..0] == [];
    case Then(a, b) =>
      var r := Meaning(a, t, n, fails);
      OnlySurvivorsRemain(a, t, n, fails);
      var left := Survivors(a, t, n, fails);
      if r.ok {
        OnlySurvivorsRemain(b, r.tables, r.next, fails);
        ApplyAllConcat(left, Survivors(b, r.tables, r.next, fails), t);
      } else {
        assert left + [] == left;
      }
    case Transaction(body) => OnlySurvivorsRemain(body, t, n, fails);
    case Caught(body) => OnlySurvivorsRemain(body, t, n, fails);
  }

  /** The faults of a run in which the `count` writes from number `at` on are not attempted. */
  function Skipping(fails: set<nat>, at: nat, count: nat): set<nat> {
    (set k | k in fails && k < at) + (set k | k in fails && k >= at + count :: k - count)
  }

  /** A handler around an inner transaction that fails: the run ends as if the inner block had never
      been written, the outer writes before and after it being kept or lost together. */
  lemma InnerFailureKeepsOuterWrites(a: Program, b: Program, c: Program, t: Tables, n: nat, fails: set<nat>)
    requires var r := Meaning(a, t, n, fails); r.ok && !Meaning(b, r.tables, r.next, fails).ok
    ensures var at := Meaning(a, t, n, fails).next;
            var count := Meaning(b, Meaning(a, t, n, fails).tables, at, fails).next - at;
            var got := Meaning(Transaction(Then(a, Then(Caught(Transaction(b)), c))), t, n, fails);
            var want := Meaning(Transaction(Then(a, c)), t, n, Skipping(fails, at, count));
            got.tables == want.tables && got.ok == want.ok
  {
    hide Meaning;
    var r := Meaning(a, t, n, fails);
    var count: nat := Meaning(b, r.tables, r.next, fails).next - r.next;
    var skipping := Skipping(fails, r.next, count);
    var inner := Then(Caught(Transaction(b)), c);
    HandledFailure(b, c, r.tables, r.next, fails);
    AfterFirst(a, inner, t, n, fails);
    assert Meaning(a, t, n, skipping) == r by {
      forall k: nat | n <= k < r.next ensures k in fails <==> k in skipping { }
      SamePrefix(a, t, n, fails, skipping);
    }
    AfterFirst(a, c, t, n, skipping);
    var shifted, rest := Meaning(c, r.tables, r.next, skipping), Meaning(c, r.tables, r.next + count, fails);
    assert shifted.tables == rest.tables && shifted.ok == rest.ok by {
      forall k: nat | k >= r.next ensures k in skipping <==> k + count in fails { SkippingAt(fails, r.next, count, k); }
      Shift(c, r.tables, r.next, count, fails, skipping);
    }
    InTransaction(Then(a, inner), t, n, fails);
    InTransaction(Then(a, c), t, n, skipping);
  }

  lemma SkippingAt(fails: set<nat>, at: nat, count: nat, k: nat)
    requires k >= at
    ensures k in Skipping(fails, at, count) <==> k + count in fails
  {
    if k + count in fails { assert k + count - count == k; }
  }

  lemma AfterFirst(a: Program, b: Program, t: Tables, n: nat, fails: set<nat>)
    requires Meaning(a, t, n, fails).ok
    ensures var r := Meaning(a, t, n, fails);
            Meaning(Then(a, b), t, n, fails) == Meaning(b, r.tables, r.next, fails)
  {
  }

  lemma InTransaction(p: Program, t: Tables, n: nat, fails: set<nat>)
    ensures var r := Meaning(p, t, n, fails);
            Meaning(Transaction(p), t, n, fails) == Result(if r.ok then r.tables else t, r.ok, r.next)
  {
  }

  lemma HandledFailure(b: Program, c: Program, t: Tables, n: nat, fails: set<nat>)
    requires !Meaning(b, t, n, fails).ok
    ensures Meaning(Then(Caught(Transaction(b)), c), t, n, fails) == Meaning(c, t, Meaning(b, t, n, fails).next, fails)
  {
    var handled := Caught(Transaction(b));
    assert Meaning(Transaction(b), t, n, fails) == Result(t, false, Meaning(b, t, n, fails).next);
    assert Meaning(handled, t, n, fails) == Result(t, true, Meaning(b, t, n, fails).next);
  }

  lemma {:induction false} SamePrefix(p: Program, t: Tables, n: nat, f: set<nat>, g: set<nat>)
    requires forall k: nat | n <= k < Meaning(p, t, n, f).next :: k in f <==> k in g
    ensures Meaning(p, t, n, f) == Meaning(p, t, n, g)
  {
    match p
    case Single(_) =>
    case Then(a, b) =>
      var r := Meaning(a, t, n, f);
      SamePrefix(a, t, n, f, g);
      if r.ok { SamePrefix(b, r.tables, r.next, f, g); }
    case Transaction(body) => SamePrefix(body, t, n, f, g);
    case Caught(body) => SamePrefix(body, t, n, f, g);
  }

  lemma {:induction false} Shift(p: Program, t: Tables, n: nat, count: nat, f: set<nat>, g: set<nat>)
    requires forall k: nat | k >= n :: k in g <==> k + count in f
    ensures var late := Meaning(p, t, n + count, f);
            Meaning(p, t, n, g).(next := late.next) == late && Meaning(p, t, n, g).next + count == late.next
    decreases p
  {
    match p
    case Single(_) =>
    case Then(a, b) =>
      Shift(a, t, n, count, f, g);
      var r := Meaning(a, t, n, g);
      if r.ok { Shift(b, r.tables, r.next, count, f, g); }
    case Transaction(body) => Shift(body, t, n, count, f, g);
    case Caught(body) => Shift(body, t, n, count, f, g);
  }

  // ---- the disk ----------------------------------------------------------------------------------

  /** How many of the first `n` attempts the disk refused. */
  ghost function Refusals(faults: set<nat>, n: nat): nat {
    |set k | k in faults && k < n|
  }

  lemma OneMoreAttempt(faults: set<nat>, n: nat)
    ensures Refusals(faults, n + 1) == Refusals(faults, n) + if n in faults then 1 else 0
  {
    var before, after := set k | k in faults && k < n, set k | k in faults && k < n + 1;
    assert after == if n in faults then before + {n} else before;
  }

  lemma RefusalsAddUp(faults: set<nat>, a: nat, b: nat)
    requires a <= b
    ensures Refusals(faults, a) <= Refusals(faults, b)
  {
    var before, after := set k | k in faults && k < a, set k | k in faults && k < b;
    assert after == before + (after - before);
  }

  lemma NothingRefused(faults: set<nat>)
    requires faults == {}
    ensures forall n: nat :: Refusals(faults, n) == 0
  {
    forall n: nat ensures Refusals(faults, n) == 0 {
      assert (set k | k in faults && k < n) == {};
    }
  }

  // ---- the store itself -------------------------------------------------------------------------

  class Store {
    // the numbers of the writes that the disk refuses
    const faults: set<nat>
    var tables: Tables
    var snapshots: seq<Tables>
    var attempts: nat

    constructor (tables: Tables, faults: set<nat>)
      ensures this.tables == tables && this.faults == faults && snapshots == [] && attempts == 0
    {
      this.tables, this.faults := tables, faults;
      snapshots, attempts := [], 0;
    }

    /** How many writes were refused so far. */
    ghost function Failures(): nat
      reads this`attempts
    {
      Refusals(faults, attempts)
    }

    /** The write guard decides (closed store, failing disk); a refused write changes nothing. */
    method Write(w: Write, fails: bool) returns (ok: bool)
      modifies this`tables
      ensures ok <==> !fails && !(w.SaveBlob? && w.blob.sizeBytes != |w.blob.content|)
      ensures tables == if ok then Apply(w, old(tables)) else old(tables)
    {
      ok := !(fails || Refused(w));
      if ok {
        tables := Apply(w, tables);
      }
    }

    /** The next numbered write. */
    method Attempt(w: Write) returns (ok: bool)
      modifies this`tables, this`attempts
      ensures attempts == old(attempts) + 1
      ensures ok <==> old(attempts) !in faults && !(w.SaveBlob? && w.blob.sizeBytes != |w.blob.content|)
      ensures !Refused(w) ==> (ok <==> Failures() == old(Failures()))
      ensures tables == if ok then Apply(w, old(tables)) else old(tables)
    {
      OneMoreAttempt(faults, attempts);
      ok := Write(w, attempts in faults);
      attempts := attempts + 1;
    }

    method Enter()
      modifies this`snapshots
      ensures snapshots == old(snapshots) + [tables]
    {
      snapshots := snapshots + [tables];
    }

    method Leave(ok: bool)
      requires snapshots != []
      modifies this`tables, this`snapshots
      ensures snapshots == old(snapshots)[..|old(snapshots)| - 1]
      ensures tables == if ok then old(tables) else old(snapshots)[|old(snapshots)| - 1]
    {
      if !ok {
        tables := snapshots[|snapshots| - 1];
      }
      snapshots := snapshots[..|snapshots| - 1];
    }

    /** Runs a program with the snapshot stack; it computes exactly the intended meaning and leaves
        the stack as it found it. */
    method Execute(p: Program) returns (ok: bool)
      modifies this
      ensures Result(tables, ok, attempts) == Meaning(p, old(tables), old(attempts), faults)
      ensures snapshots == old(snapshots)
      decreases p
    {
      match p {
        case Single(w) =>
          ok := Attempt(w);
        case Then(a, b) =>
          ok := Execute(a);
          if ok {
            ok := Execute(b);
          }
        case Transaction(body) =>
          Enter();
          ok := Execute(body);
          Leave(ok);
        case Caught(body) =>
          ok := Execute(body);
          ok := true;
      }
    }

    /** One batch in one transaction: it is stored as a whole, or the disk refused one of its writes. */
    method SaveAll(batch: seq<Write>) returns (ok: bool)
      requires forall w | w in batch :: !Refused(w)
      modifies this
      ensures ok <==> Failures() == old(Failures())
      ensures tables == if ok then ApplyAll(batch, old(tables)) else old(tables)
      ensures snapshots == old(snapshots) && old(attempts) <= attempts
    {
      hide Refusals;
      Enter();
      ok := true;
      var i := 0;
      while i < |batch| && ok
        invariant 0 <= i <= |batch| && old(attempts) <= attempts
        invariant snapshots == old(snapshots) + [old(tables)]
        invariant ok ==> tables == ApplyAll(batch[..i], old(tables))
        invariant ok <==> Failures() == old(Failures())
        decreases |batch| - i, ok
      {
        ok := Attempt(batch[i]);
        assert batch[..i + 1][..i] == batch[..i];
        i := i + 1;
      }
      assert ok ==> batch[..i] == batch;
      Leave(ok);
    }
  }
}
