/** The bounded signer executor (src/modules/sfu-admission/bounded-signer-executor.ts): concurrency,
    queue, timeouts and shutdown. */
module SignerExecutor {
  import opened Runs
  import opened Ordering

  /** An operation; `throws` says that calling it throws before it returns a promise. */
  datatype Operation = Operation(id: nat, throws: bool)

  /** `running` are operations that occupy a slot until their completion callback, `leaked` the slots
      taken by operations that threw. `accepted`, `started`, `cancelled` and `settled` remember what
      happened to the promises, oldest first, and `throwing` which accepted operations throw. */
  datatype Executor = Executor(
    queue: seq<Operation>, running: set<nat>, leaked: seq<nat>, closed: bool,
    accepted: seq<nat>, started: seq<nat>, cancelled: seq<nat>, settled: seq<nat>, throwing: set<nat>)

  datatype Limits = Limits(concurrency: nat, queueCapacity: nat)

  function Initial(): Executor {
    Executor([], {}, [], false, [], [], [], [], {})
  }

  function Active(e: Executor): nat {
    |e.running| + |e.leaked|
  }

  predicate Refuses(limits: Limits, e: Executor) {
    e.closed || |e.queue| >= limits.queueCapacity
  }

  /** Occupies a slot. Only a call of `execute` can reject the promise of an operation that throws. */
  function Start(e: Executor, operation: Operation, inExecute: bool): Executor {
    var begun := e.(started := e.started + [operation.id]);
    if !operation.throws then begun.(running := e.running + {operation.id})
    else begun.(leaked := e.leaked + [operation.id],
                settled := if inExecute then e.settled + [operation.id] else e.settled)
  }

  /** Counts an operation as accepted. */
  function Admit(e: Executor, operation: Operation): Executor {
    e.(accepted := e.accepted + [operation.id],
       throwing := if operation.throws then e.throwing + {operation.id} else e.throwing)
  }

  function Execute(limits: Limits, e: Executor, operation: Operation): Executor {
    if Refuses(limits, e) then e
    else
      var taken := Admit(e, operation);
      if Active(e) < limits.concurrency then Start(taken, operation, true)
      else taken.(queue := e.queue + [operation])
  }

  function Settle(e: Executor, id: nat): Executor {
    e.(settled := e.settled + [id])
  }

  /** The completion callback: frees the slot and starts the next queued operation. */
  function Complete(e: Executor, id: nat): Executor {
    var freed := e.(running := e.running - {id});
    if e.queue == [] then freed else Start(freed.(queue := e.queue[1..]), e.queue[0], false)
  }

  function Ids(operations: seq<Operation>): (ids: seq<nat>)
    ensures |ids| == |operations| && forall i | 0 <= i < |ids| :: ids[i] == operations[i].id
  {
    seq(|operations|, i requires 0 <= i < |operations| => operations[i].id)
  }

  function Close(e: Executor): Executor {
    e.(closed := true, queue := [], cancelled := e.cancelled + Ids(e.queue), settled := e.settled + Ids(e.queue))
  }

  datatype Step = Call(operation: Operation) | Finish(id: nat) | Callback(id: nat) | Shutdown

  /** `Finish` is the first of the operation's own result and its timeout. */
  predicate Enabled(e: Executor, step: Step) {
    match step
    case Call(operation) => operation.id !in e.accepted
    case Finish(id) => id in e.running && id !in e.settled
    case Callback(id) => id in e.running && id in e.settled
    case Shutdown => true
  }

  function Apply(limits: Limits, e: Executor, step: Step): Executor {
    match step
    case Call(operation) => Execute(limits, e, operation)
    case Finish(id) => Settle(e, id)
    case Callback(id) => Complete(e, id)
    case Shutdown => Close(e)
  }

  /** Slots and queue are bounded, a waiting operation means that every slot is taken, and operations
      start in the order in which they were accepted. */
  ghost predicate Bounded(limits: Limits, e: Executor) {
    && Active(e) <= limits.concurrency
    && |e.queue| <= limits.queueCapacity
    && (e.queue != [] ==> Active(e) == limits.concurrency)
    && (if e.closed then e.queue == [] else e.cancelled == [])
    && e.accepted == e.started + Ids(e.queue) + e.cancelled
  }

  /** Where every accepted operation is: started ones are running, leaked or settled; queued ones are
      untouched; cancelled ones are settled. */
  ghost predicate Accounted(e: Executor) {
    && Distinct(e.accepted) && Distinct(e.settled)
    && (forall id <- e.running :: id in e.started && id !in e.leaked)
    && (forall id <- e.leaked :: id in e.started)
    && (forall id <- e.started :: id in e.running || id in e.leaked || id in e.settled)
    && (forall id <- e.settled :: id in e.started || id in e.cancelled)
    && (forall id <- e.cancelled :: id in e.settled)
  }

  ghost predicate Inv(limits: Limits, e: Executor) {
    Bounded(limits, e) && Accounted(e)
  }

  /** Queued operations have neither started nor settled. */
  lemma QueuedIsUntouched(limits: Limits, e: Executor, k: nat)
    requires Inv(limits, e) && k < |e.queue|
    ensures var id := e.queue[k].id;
            id !in e.started && id !in e.settled && id !in e.cancelled && id !in e.running
  {
    var id := e.queue[k].id;
    var n := |e.started| + k;
    assert e.accepted[n] == Ids(e.queue)[k] == id;
    assert forall i | 0 <= i < |e.started| :: e.accepted[i] == e.started[i] && i < n;
    assert e.cancelled == [];
  }

  lemma CallKeepsInv(limits: Limits, e: Executor, operation: Operation)
    requires Inv(limits, e) && operation.id !in e.accepted
    ensures Inv(limits, Execute(limits, e, operation))
  {
    if !Refuses(limits, e) {
      NewIsUntouched(limits, e, operation.id);
      if Active(e) < limits.concurrency {
        StartAtOnce(limits, e, operation);
      } else {
        QueueUp(limits, e, operation);
      }
    }
  }

  lemma NewIsUntouched(limits: Limits, e: Executor, id: nat)
    requires Inv(limits, e) && id !in e.accepted
    ensures id !in e.started && id !in e.settled && id !in e.cancelled && id !in e.running && id !in e.leaked
  {
    forall other <- e.started ensures other in e.accepted {}
    forall other <- e.cancelled ensures other in e.accepted {}
  }

  lemma StartAtOnce(limits: Limits, e: Executor, operation: Operation)
    requires Inv(limits, e) && !e.closed && Active(e) < limits.concurrency
    requires operation.id !in e.accepted && operation.id !in e.started && operation.id !in e.settled
    requires operation.id !in e.running && operation.id !in e.leaked
    ensures Inv(limits, Start(Admit(e, operation), operation, true))
  {
    var t := Start(Admit(e, operation), operation, true);
    StartCounts(Admit(e, operation), operation, true);
    assert e.queue == [] && e.cancelled == [] && Ids(e.queue) == [];
    assert t.accepted == t.started + Ids(t.queue) + t.cancelled;
    StartAccounts(e, operation);
  }

  lemma StartAccounts(e: Executor, operation: Operation)
    requires Accounted(e) && operation.id !in e.accepted && operation.id !in e.settled
    requires operation.id !in e.running && operation.id !in e.leaked
    ensures Accounted(Start(Admit(e, operation), operation, true))
  {
    var t, id := Start(Admit(e, operation), operation, true), operation.id;
    assert t.started == e.started + [id] && t.accepted == e.accepted + [id];
    forall other ensures other in t.started <==> other in e.started || other == id {}
    assert operation.throws ==> t.leaked == e.leaked + [id] && t.settled == e.settled + [id];
  }

  lemma QueueUp(limits: Limits, e: Executor, operation: Operation)
    requires Inv(limits, e) && !Refuses(limits, e) && Active(e) == limits.concurrency
    requires operation.id !in e.accepted
    ensures Inv(limits, Admit(e, operation).(queue := e.queue + [operation]))
  {
    var t := Admit(e, operation).(queue := e.queue + [operation]);
    assert e.cancelled == [];
    assert Ids(t.queue) == Ids(e.queue) + [operation.id];
    assert t.accepted == t.started + Ids(t.queue) + t.cancelled;
  }

  /** Freeing a slot with nothing queued. */
  lemma FreeKeepsInv(limits: Limits, e: Executor, id: nat)
    requires Inv(limits, e) && id in e.running && id in e.settled && e.queue == []
    ensures Inv(limits, e.(running := e.running - {id}))
  {
  }

  /** Freeing a slot and giving it to the head of the queue: the bounds. */
  lemma HandOverActive(e: Executor, id: nat)
    requires id in e.running && e.queue != [] && e.queue[0].id !in e.running
    ensures Active(Complete(e, id)) == Active(e)
  {
    var freed := e.running - {id};
    assert |freed| == |e.running| - 1;
    if !e.queue[0].throws { assert |freed + {e.queue[0].id}| == |freed| + 1; }
  }

  /** The head of the queue is the next to start. */
  lemma HandOverOrder(started: seq<nat>, queue: seq<Operation>)
    requires queue != []
    ensures started + Ids(queue) == started + [queue[0].id] + Ids(queue[1..])
  {
  }

  lemma HandOverBounded(limits: Limits, e: Executor, id: nat)
    requires Inv(limits, e) && id in e.running && e.queue != []
    ensures Bounded(limits, Complete(e, id))
  {
    QueuedIsUntouched(limits, e, 0);
    HandOverActive(e, id);
    HandOverOrder(e.started, e.queue);
  }

  /** The same, for where every operation is. */
  lemma HandOverAccounted(e: Executor, id: nat)
    requires Accounted(e) && id in e.running && id in e.settled && e.queue != []
    requires e.queue[0].id !in e.started
    ensures Accounted(Complete(e, id))
  {
    var t := Complete(e, id);
    var next := e.queue[0].id;
    assert t.started == e.started + [next];
    forall other ensures other in t.started <==> other in e.started || other == next {}
    forall other <- t.started ensures other in t.running || other in t.leaked || other in t.settled {
      if other == next && e.queue[0].throws { assert t.leaked[|e.leaked|] == next; }
    }
  }

  lemma CallbackKeepsInv(limits: Limits, e: Executor, id: nat)
    requires Inv(limits, e) && id in e.running && id in e.settled
    ensures Inv(limits, Complete(e, id))
  {
    if e.queue == [] {
      FreeKeepsInv(limits, e, id);
    } else {
      QueuedIsUntouched(limits, e, 0);
      HandOverBounded(limits, e, id);
      HandOverAccounted(e, id);
    }
  }

  lemma ShutdownKeepsInv(limits: Limits, e: Executor)
    requires Inv(limits, e)
    ensures Inv(limits, Close(e))
  {
    var t := Close(e);
    forall k | 0 <= k < |e.queue| ensures Ids(e.queue)[k] !in e.settled { QueuedIsUntouched(limits, e, k); }
    if e.closed {
      assert t.accepted == t.started + Ids(t.queue) + t.cancelled;
    } else {
      assert t.accepted == t.started + Ids(t.queue) + t.cancelled;
      assert forall k | 0 <= k < |e.queue| :: Ids(e.queue)[k] == e.accepted[|e.started| + k];
    }
  }

  lemma StepKeepsInv(limits: Limits, e: Executor, step: Step)
    requires Inv(limits, e) && Enabled(e, step)
    ensures Inv(limits, Apply(limits, e, step))
  {
    match step {
      case Call(operation) => CallKeepsInv(limits, e, operation);
      case Finish(id) =>
      case Callback(id) => CallbackKeepsInv(limits, e, id);
      case Shutdown => ShutdownKeepsInv(limits, e);
    }
  }

  // ---------------------------------------------------------------------------------------------
  // Theorems over every run
  // ---------------------------------------------------------------------------------------------

  ghost predicate Next(limits: Limits, e: Executor, f: Executor) {
    exists step :: Enabled(e, step) && f == Apply(limits, e, step)
  }

  ghost predicate IsExecutorRun(limits: Limits, states: seq<Executor>) {
    IsRun((e: Executor, f: Executor) => Next(limits, e, f), states) && states[0] == Initial()
  }

  lemma RunsKeepInv(limits: Limits, states: seq<Executor>)
    requires IsExecutorRun(limits, states)
    ensures forall i | 0 <= i < |states| :: Inv(limits, states[i])
  {
    var inv := (e: Executor) => Inv(limits, e);
    var next := (e: Executor, f: Executor) => Next(limits, e, f);
    forall e, f | inv(e) && next(e, f) ensures inv(f) {
      var step :| Enabled(e, step) && f == Apply(limits, e, step);
      StepKeepsInv(limits, e, step);
    }
    assert inv(states[0]);
    Invariance(inv, next, states);
    forall i | 0 <= i < |states| ensures Inv(limits, states[i]) { assert inv(states[i]); }
  }

  /** Over every run: slots and queue stay within bounds, a nonempty queue means all slots are busy, and
      starts follow acceptance order. */
  lemma SlotsAreBounded(limits: Limits, states: seq<Executor>, i: nat)
    requires IsExecutorRun(limits, states) && i < |states|
    ensures var e := states[i];
            && Active(e) <= limits.concurrency
            && |e.queue| <= limits.queueCapacity
            && (e.queue != [] ==> Active(e) == limits.concurrency)
            && e.started + Ids(e.queue) <= e.accepted
  {
    RunsKeepInv(limits, states);
    assert Inv(limits, states[i]);
  }

  lemma FourWaySum(a: set<nat>, b: set<nat>, c: set<nat>, d: set<nat>)
    requires a !! b !! c !! d
    ensures |a + b + c + d| == |a| + |b| + |c| + |d|
  {
  }

  /** Accepted operations split into settled, running, queued and lost ones. */
  lemma AcceptedSplits(limits: Limits, e: Executor)
    requires Inv(limits, e)
    ensures var settled, queued := Elements(e.settled), Elements(Ids(e.queue));
            var running, lost := e.running - settled, Elements(e.leaked) - settled;
            && Elements(e.accepted) == settled + running + queued + lost
            && settled !! running !! queued !! lost
  {
    var settled, queued := Elements(e.settled), Elements(Ids(e.queue));
    forall id <- queued ensures id !in settled && id !in e.running && id !in Elements(e.leaked) {
      var k :| 0 <= k < |e.queue| && Ids(e.queue)[k] == id;
      QueuedIsUntouched(limits, e, k);
    }
    forall id ensures id in e.accepted <==> id in e.started || id in Ids(e.queue) || id in e.cancelled {}
  }

  lemma QueueIsDistinct(limits: Limits, e: Executor)
    requires Inv(limits, e)
    ensures Distinct(Ids(e.queue))
  {
    var n := |e.started|;
    forall i, j | 0 <= i < j < |e.queue| ensures Ids(e.queue)[i] != Ids(e.queue)[j] {
      assert e.accepted[n + i] == Ids(e.queue)[i] && e.accepted[n + j] == Ids(e.queue)[j];
    }
  }

  /** Settled exactly once, still running, still queued, or lost to a synchronous throw. */
  ghost predicate Conserved(e: Executor) {
    var settled := Elements(e.settled);
    && Distinct(e.settled)
    && |e.accepted| == |e.settled| + |e.running - settled| + |e.queue| + |Elements(e.leaked) - settled|
  }

  lemma InvConserves(limits: Limits, e: Executor)
    requires Inv(limits, e)
    ensures Conserved(e)
  {
    AcceptedSplits(limits, e);
    QueueIsDistinct(limits, e);
    DistinctCount(e.accepted);
    DistinctCount(e.settled);
    DistinctCount(Ids(e.queue));
    var settled := Elements(e.settled);
    FourWaySum(settled, e.running - settled, Elements(Ids(e.queue)), Elements(e.leaked) - settled);
  }

  /** Conservation over every run: nothing accepted disappears and nothing is counted twice. */
  lemma OperationsAreConserved(limits: Limits, states: seq<Executor>, i: nat)
    requires IsExecutorRun(limits, states) && i < |states|
    ensures Conserved(states[i])
  {
    RunsKeepInv(limits, states);
    InvConserves(limits, states[i]);
  }

  /** A step in which no caller hands over an operation that throws synchronously. */
  ghost predicate CalmNext(limits: Limits, e: Executor, f: Executor) {
    exists step :: Enabled(e, step) && (step.Call? ==> !step.operation.throws) && f == Apply(limits, e, step)
  }

  ghost predicate Calm(e: Executor) {
    e.leaked == [] && forall operation <- e.queue :: !operation.throws
  }

  lemma CalmStep(limits: Limits, e: Executor, step: Step)
    requires Calm(e) && (step.Call? ==> !step.operation.throws)
    ensures Calm(Apply(limits, e, step))
  {
  }

  /** If no operation throws synchronously, no slot leaks: as many slots are taken as operations run, and
      accepted operations are exactly the settled, the running and the queued ones. */
  lemma NoThrowNoLeak(limits: Limits, states: seq<Executor>, i: nat)
    requires IsRun((e: Executor, f: Executor) => CalmNext(limits, e, f), states) && states[0] == Initial()
    requires i < |states|
    ensures var e := states[i];
            && Active(e) == |e.running| <= limits.concurrency
            && Distinct(e.settled)
            && |e.accepted| == |e.settled| + |e.running - Elements(e.settled)| + |e.queue|
  {
    var inv := (e: Executor) => Inv(limits, e) && Calm(e);
    var next := (e: Executor, f: Executor) => CalmNext(limits, e, f);
    forall e, f | inv(e) && next(e, f) ensures inv(f) {
      var step :| Enabled(e, step) && (step.Call? ==> !step.operation.throws) && f == Apply(limits, e, step);
      StepKeepsInv(limits, e, step);
      CalmStep(limits, e, step);
    }
    assert inv(states[0]);
    Invariance(inv, next, states);
    assert inv(states[i]);
    InvConserves(limits, states[i]);
    assert Elements(states[i].leaked) - Elements(states[i].settled) == {};
  }

  /** The operations among `ids` that throw, in order. */
  function Throwers(ids: seq<nat>, throwing: set<nat>): seq<nat> {
    if ids == [] then []
    else
      var last := ids[|ids| - 1];
      Throwers(ids[..|ids| - 1], throwing) + if last in throwing then [last] else []
  }

  lemma {:induction false} ThrowersFilter(ids: seq<nat>, throwing: set<nat>)
    ensures forall id :: id in Throwers(ids, throwing) <==> id in ids && id in throwing
  {
    if ids != [] {
      var init, last := ids[..|ids| - 1], ids[|ids| - 1];
      ThrowersFilter(init, throwing);
      assert ids == init + [last];
    }
  }

  lemma {:induction false} ThrowersIgnore(ids: seq<nat>, throwing: set<nat>, id: nat)
    requires id !in ids
    ensures Throwers(ids, throwing + {id}) == Throwers(ids, throwing)
  {
    if ids != [] {
      var init, last := ids[..|ids| - 1], ids[|ids| - 1];
      assert last in ids && forall x <- init :: x in ids;
      ThrowersIgnore(init, throwing, id);
    }
  }

  /** The slots lost so far are exactly those of the started operations that throw. */
  ghost predicate LeakSound(e: Executor) {
    && e.leaked == Throwers(e.started, e.throwing)
    && (forall operation <- e.queue :: operation.throws <==> operation.id in e.throwing)
    && (forall id <- e.throwing :: id in e.accepted)
  }

  lemma ThrowersStart(started: seq<nat>, throwing: set<nat>, operation: Operation)
    requires operation.throws <==> operation.id in throwing
    ensures Throwers(started + [operation.id], throwing)
            == Throwers(started, throwing) + if operation.throws then [operation.id] else []
  {
    assert (started + [operation.id])[..|started|] == started;
  }

  /** Nothing the executor has seen carries this identifier. */
  ghost predicate Unknown(e: Executor, id: nat) {
    id !in e.accepted && id !in e.started && forall operation <- e.queue :: operation.id != id
  }

  lemma NewIsUnknown(limits: Limits, e: Executor, id: nat)
    requires Inv(limits, e) && id !in e.accepted
    ensures Unknown(e, id)
  {
    NewIsUntouched(limits, e, id);
    forall k | 0 <= k < |e.queue| ensures e.queue[k].id != id {
      assert e.accepted[|e.started| + k] == Ids(e.queue)[k];
    }
  }

  lemma LeakAdmit(e: Executor, operation: Operation)
    requires LeakSound(e) && Unknown(e, operation.id)
    ensures LeakSound(Admit(e, operation))
    ensures operation.throws <==> operation.id in Admit(e, operation).throwing
  {
    ThrowersIgnore(e.started, e.throwing, operation.id);
  }

  lemma LeakStart(e: Executor, operation: Operation, inExecute: bool)
    requires LeakSound(e) && (operation.throws <==> operation.id in e.throwing)
    ensures LeakSound(Start(e, operation, inExecute))
  {
    ThrowersStart(e.started, e.throwing, operation);
  }

  lemma LeakCall(limits: Limits, e: Executor, operation: Operation)
    requires Inv(limits, e) && LeakSound(e) && operation.id !in e.accepted
    ensures LeakSound(Execute(limits, e, operation))
  {
    NewIsUnknown(limits, e, operation.id);
    LeakAdmit(e, operation);
    LeakStart(Admit(e, operation), operation, true);
  }

  lemma LeakStep(limits: Limits, e: Executor, step: Step)
    requires Inv(limits, e) && LeakSound(e) && Enabled(e, step)
    ensures LeakSound(Apply(limits, e, step))
  {
    match step {
      case Call(operation) => LeakCall(limits, e, operation);
      case Callback(id) => LeakCallback(e, id);
      case _ =>
    }
  }

  lemma LeakCallback(e: Executor, id: nat)
    requires LeakSound(e)
    ensures LeakSound(Complete(e, id))
  {
    if e.queue != [] {
      var freed := e.(running := e.running - {id}, queue := e.queue[1..]);
      assert LeakSound(freed);
      LeakStart(freed, e.queue[0], false);
    }
  }

  /** Over every run the leaked slots are those of the started operations that throw, in start order; so a
      slot is lost if and only if an operation that throws was started. */
  lemma LeaksExactly(limits: Limits, states: seq<Executor>, i: nat)
    requires IsExecutorRun(limits, states) && i < |states|
    ensures states[i].leaked == Throwers(states[i].started, states[i].throwing)
    ensures states[i].leaked != [] <==> exists id <- states[i].started :: id in states[i].throwing
  {
    var inv := (e: Executor) => Inv(limits, e) && LeakSound(e);
    var next := (e: Executor, f: Executor) => Next(limits, e, f);
    forall e, f | inv(e) && next(e, f) ensures inv(f) {
      var step :| Enabled(e, step) && f == Apply(limits, e, step);
      StepKeepsInv(limits, e, step);
      LeakStep(limits, e, step);
    }
    assert inv(states[0]);
    Invariance(inv, next, states);
    var e := states[i];
    assert inv(e);
    ThrowersFilter(e.started, e.throwing);
    if e.leaked != [] { assert e.leaked[0] in e.leaked; }
  }

  /** A leaked slot is gone for good, and once every slot has leaked a step starts nothing. */
  lemma LeakedSlotsStayLost(limits: Limits, e: Executor, step: Step)
    requires Inv(limits, e) && Enabled(e, step)
    ensures var f := Apply(limits, e, step);
            && e.leaked <= f.leaked
            && (|e.leaked| == limits.concurrency ==> f.started == e.started && f.leaked == e.leaked)
  {
    if |e.leaked| == limits.concurrency { assert e.running == {}; }
  }

  /** Once every slot has leaked, no operation ever starts again. */
  lemma LeakedExecutorIsStuck(limits: Limits, states: seq<Executor>, i: nat, j: nat)
    requires IsExecutorRun(limits, states) && i <= j < |states|
    requires |states[i].leaked| == limits.concurrency
    ensures states[j].started == states[i].started
  {
    RunsKeepInv(limits, states);
    var first := states[i].started;
    var next := (e: Executor, f: Executor) => Next(limits, e, f);
    var stuck := (e: Executor) => Inv(limits, e) && |e.leaked| == limits.concurrency && e.started == first;
    var part := states[i..j + 1];
    SubRun(next, states, i, j);
    forall e, f | stuck(e) && next(e, f) ensures stuck(f) {
      var step :| Enabled(e, step) && f == Apply(limits, e, step);
      StepKeepsInv(limits, e, step);
      LeakedSlotsStayLost(limits, e, step);
    }
    assert Inv(limits, states[i]) && stuck(part[0]);
    Invariance(stuck, next, part);
    assert stuck(part[j - i]) && part[j - i] == states[j];
  }

  /** One such call is enough for an executor with one slot. */
  lemma OneThrowIsEnough()
    ensures exists states: seq<Executor> :: IsExecutorRun(Limits(1, 1), states) && |states[|states| - 1].leaked| == 1
  {
    var limits, step := Limits(1, 1), Call(Operation(0, true));
    var states := [Initial(), Apply(limits, Initial(), step)];
    assert Enabled(states[0], step) && Next(limits, states[0], states[1]);
    assert |states[|states| - 1].leaked| == 1;
  }

  /** A running operation that finishes, by itself or by its timeout, is settled once; its completion then
      frees its slot and gives it to the operation that has waited longest, if one waits. */
  lemma FinishedIsSettled(limits: Limits, e: Executor, id: nat)
    requires Inv(limits, e) && Enabled(e, Finish(id))
    ensures var f := Apply(limits, e, Finish(id));
            && f == e.(settled := e.settled + [id]) && id !in e.settled
            && Enabled(f, Callback(id)) && !Enabled(f, Finish(id))
            && var g := Apply(limits, f, Callback(id));
               && id !in g.running && id in g.settled
               && (e.queue == [] ==> Active(g) == Active(e) - 1 && g.started == e.started)
               && (e.queue != [] ==>
                     Active(g) == Active(e) && g.started == e.started + [e.queue[0].id] && g.queue == e.queue[1..])
  {
    var f := Apply(limits, e, Finish(id));
    StepKeepsInv(limits, e, Finish(id));
    if e.queue == [] {
      assert |f.running - {id}| == |f.running| - 1;
    } else {
      QueuedIsUntouched(limits, f, 0);
      HandOverActive(f, id);
    }
  }

  /** After shutdown nothing is accepted or started any more, and everything that was waiting is settled. */
  lemma ClosedForGood(limits: Limits, states: seq<Executor>, i: nat, j: nat)
    requires IsExecutorRun(limits, states) && i < j < |states| && states[i + 1] == Close(states[i])
    ensures states[j].closed && states[j].accepted == states[i].accepted && states[j].started == states[i].started
    ensures forall operation <- states[i].queue :: operation.id in states[i + 1].settled
  {
    RunsKeepInv(limits, states);
    var first := states[i];
    var next := (e: Executor, f: Executor) => Next(limits, e, f);
    var shut := (e: Executor) =>
      Inv(limits, e) && e.closed && e.accepted == first.accepted && e.started == first.started;
    var part := states[i + 1..j + 1];
    SubRun(next, states, i + 1, j);
    forall e, f | shut(e) && next(e, f) ensures shut(f) {
      var step :| Enabled(e, step) && f == Apply(limits, e, step);
      StepKeepsInv(limits, e, step);
    }
    assert Inv(limits, states[i + 1]) && shut(part[0]);
    Invariance(shut, next, part);
    assert shut(part[j - i - 1]) && part[j - i - 1] == states[j];
    forall operation <- first.queue ensures operation.id in states[i + 1].settled {
      var k :| 0 <= k < |first.queue| && first.queue[k] == operation;
      assert Ids(first.queue)[k] == operation.id;
    }
  }

  // ---------------------------------------------------------------------------------------------
  // The executor object
  // ---------------------------------------------------------------------------------------------

  /** `log` is the bookkeeping above for the same history; `active` is the counter the code keeps. */
  class BoundedSignerExecutor {
    var queue: seq<Operation>
    var active: nat
    var closed: bool
    ghost var log: Executor
    const limits: Limits

    ghost predicate Valid()
      reads this
    {
      Inv(limits, log) && queue == log.queue && active == Active(log) && closed == log.closed
    }

    constructor (limits: Limits)
      ensures Valid() && log == Initial() && this.limits == limits
    {
      this.limits, queue, active, closed, log := limits, [], 0, false, Initial();
    }

    /** False stands for the promise that is rejected at once. */
    method ExecuteOperation(operation: Operation) returns (taken: bool)
      requires Valid() && operation.id !in log.accepted
      modifies this
      ensures Valid() && log == Execute(limits, old(log), operation)
      ensures taken <==> !old(closed) && |old(queue)| < limits.queueCapacity
      ensures !taken ==> log == old(log)
      ensures taken ==> log.accepted == old(log.accepted) + [operation.id]
      ensures taken && old(active) < limits.concurrency ==> log.started == old(log.started) + [operation.id] && queue == old(queue)
      ensures taken && old(active) >= limits.concurrency ==> log.started == old(log.started) && queue == old(queue) + [operation]
      ensures closed == old(closed)
    {
      CallKeepsInv(limits, log, operation);
      ghost var before := log;
      if closed || |queue| >= limits.queueCapacity { return false; }
      log := Execute(limits, log, operation);
      if active < limits.concurrency {
        StartCounts(Admit(before, operation), operation, true);
        active := active + 1;
      } else {
        queue := queue + [operation];
      }
      return true;
    }

    method OnCompleted(id: nat)
      requires Valid() && id in log.running && id in log.settled
      modifies this
      ensures Valid() && log == Complete(old(log), id)
      ensures id !in log.running && closed == old(closed) && log.accepted == old(log.accepted)
      ensures old(queue) == [] ==> queue == [] && log.started == old(log.started) && active == old(active) - 1
      ensures old(queue) != [] ==>
                queue == old(queue)[1..] && log.started == old(log.started) + [old(queue)[0].id] && active == old(active)
    {
      CallbackKeepsInv(limits, log, id);
      ghost var freed := log.(running := log.running - {id});
      assert Active(freed) == Active(log) - 1;
      active := active - 1;
      if |queue| > 0 {
        QueuedIsUntouched(limits, log, 0);
        StartCounts(freed.(queue := log.queue[1..]), queue[0], false);
        log := Complete(log, id);
        queue := queue[1..];
        active := active + 1;
      } else {
        log := Complete(log, id);
      }
    }

    method CloseExecutor()
      requires Valid()
      modifies this
      ensures Valid() && log == Close(old(log)) && queue == [] && closed
      ensures log.started == old(log.started) && log.running == old(log.running)
      ensures forall operation <- old(queue) :: operation.id in log.settled && operation.id in log.cancelled
    {
      ShutdownKeepsInv(limits, log);
      forall operation <- queue ensures operation.id in Ids(queue) {
        var k :| 0 <= k < |queue| && queue[k] == operation;
        assert Ids(queue)[k] == operation.id;
      }
      closed := true;
      queue := [];
      log := Close(log);
    }
  }

  /** Starting takes exactly one slot, whether the operation runs or throws. */
  lemma StartCounts(e: Executor, operation: Operation, inExecute: bool)
    requires operation.id !in e.running
    ensures Active(Start(e, operation, inExecute)) == Active(e) + 1
  {
  }
}
