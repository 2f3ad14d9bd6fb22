/** Which claim an acknowledgement belongs to. `markPublished` recognises the owner by worker name and an
    unexpired lease only; the attempt count that the claim returned with the delivery tells the claims
    of one row apart (src/modules/outbox/postgres-outbox.repository.ts:57-88). */
module OutboxClaims {
  import opened ChatTypes
  import opened Runs
  import opened Outbox

  // ---------------------------------------------------------------------------------------------
  // Claim numbers
  // ---------------------------------------------------------------------------------------------

  /** No attempt is numbered beyond its row's count, and the latest one's lease is the row's, if any. */
  ghost predicate NumberSound(rows: map<nat, Row>, a: Attempt) {
    && a.row in rows && a.number <= rows[a.row].attempts
    && (a.number == rows[a.row].attempts && rows[a.row].lease.Some? ==>
          rows[a.row].lease == Some(Lease(a.worker, a.until)))
  }

  ghost predicate NumbersSound(w: World) {
    forall a <- w.attempts :: NumberSound(w.rows, w.attempts[a])
  }

  lemma NumberStep(w: World, step: Step)
    requires Linked(w) && NumbersSound(w) && Enabled(w, step)
    ensures NumbersSound(Apply(w, step))
  {
    var t := Apply(w, step);
    forall a <- t.attempts ensures NumberSound(t.rows, t.attempts[a]) {
      if a in w.attempts { assert NumberSound(w.rows, w.attempts[a]); }
    }
  }

  lemma NumbersStaySound(states: seq<World>, i: nat)
    requires IsRun(Next, states) && states[0] == Initial() && i < |states|
    ensures NumbersSound(states[i])
  {
    forall w, v | NumbersSound(w) && Next(w, v) ensures NumbersSound(v) {
      var step :| Enabled(w, step) && v == Apply(w, step);
      NumberStep(w, step);
    }
    Invariance(NumbersSound, Next, states);
  }

  // ---------------------------------------------------------------------------------------------
  // Where leases and attempts come from
  // ---------------------------------------------------------------------------------------------

  /** The step from state `m` is the `n`-th claim of row `id`, or its leased insertion, and set this lease. */
  ghost predicate Claimed(states: seq<World>, m: nat, id: nat, n: nat, lease: Lease) {
    && m + 1 < |states|
    && id in states[m + 1].rows && states[m + 1].rows[id].attempts == n && states[m + 1].rows[id].lease == Some(lease)
    && (id in states[m].rows ==> states[m].rows[id].attempts + 1 == n)
  }

  /** The step from state `m` began attempt `a`. */
  ghost predicate Begins(states: seq<World>, m: nat, a: nat, attempt: Attempt) {
    && m + 1 < |states|
    && a !in states[m].attempts && a in states[m + 1].attempts
    && states[m + 1].attempts[a].(stage := attempt.stage) == attempt
  }

  /** One step keeps the lease and the count of a row, or is a claim of it. */
  lemma LeaseStep(w: World, step: Step, id: nat)
    requires Linked(w) && Enabled(w, step)
    requires var t := Apply(w, step); id in t.rows && t.rows[id].lease.Some?
    ensures var t := Apply(w, step);
            || (id in w.rows && w.rows[id].lease == t.rows[id].lease && w.rows[id].attempts == t.rows[id].attempts)
            || (id in w.rows ==> w.rows[id].attempts + 1 == t.rows[id].attempts)
  {
  }

  /** A lease was set by the claim that the row's count names. */
  lemma {:induction false} LeaseWasClaimed(states: seq<World>, j: nat, id: nat)
    requires IsRun(Next, states) && states[0] == Initial() && j < |states|
    requires id in states[j].rows && states[j].rows[id].lease.Some?
    ensures var row := states[j].rows[id];
            exists m: nat :: m < j && Claimed(states, m, id, row.attempts, row.lease.value)
    decreases j
  {
    var w := states[j - 1];
    assert Next(w, states[j - 1 + 1]);
    var step :| Enabled(w, step) && states[j] == Apply(w, step);
    LeaseStep(w, step, id);
    var row := states[j].rows[id];
    if id in w.rows && w.rows[id].lease == row.lease && w.rows[id].attempts == row.attempts {
      LeaseWasClaimed(states, j - 1, id);
    } else {
      assert Claimed(states, j - 1, id, row.attempts, row.lease.value);
    }
  }

  /** A new attempt comes with a claim, whose number and lease it carries. */
  lemma AttemptStep(w: World, step: Step, a: nat)
    requires Linked(w) && Enabled(w, step) && a in Apply(w, step).attempts
    ensures var t := Apply(w, step);
            var attempt := t.attempts[a];
            if a in w.attempts then attempt == w.attempts[a].(stage := attempt.stage)
            else
              && attempt.row in t.rows && t.rows[attempt.row].attempts == attempt.number
              && t.rows[attempt.row].lease == Some(Lease(attempt.worker, attempt.until))
              && (attempt.row in w.rows ==> w.rows[attempt.row].attempts + 1 == attempt.number)
  {
  }

  /** Every attempt began with the claim of its number. */
  lemma {:induction false} AttemptWasClaimed(states: seq<World>, j: nat, a: nat)
    requires IsRun(Next, states) && states[0] == Initial() && j < |states| && a in states[j].attempts
    ensures var attempt := states[j].attempts[a];
            exists m: nat :: m < j && Begins(states, m, a, attempt)
              && Claimed(states, m, attempt.row, attempt.number, Lease(attempt.worker, attempt.until))
    decreases j
  {
    var w := states[j - 1];
    assert Next(w, states[j - 1 + 1]);
    var step :| Enabled(w, step) && states[j] == Apply(w, step);
    AttemptStep(w, step, a);
    var attempt := states[j].attempts[a];
    if a in w.attempts {
      AttemptWasClaimed(states, j - 1, a);
      var before := w.attempts[a];
      var m: nat :| m < j - 1 && Begins(states, m, a, before)
                    && Claimed(states, m, before.row, before.number, Lease(before.worker, before.until));
      assert Begins(states, m, a, attempt);
    } else {
      assert Begins(states, j - 1, a, attempt);
    }
  }

  /** What begins with a step carries that step's number. */
  lemma BeginsNumbered(states: seq<World>, m: nat, a: nat, attempt: Attempt)
    requires IsRun(Next, states) && Begins(states, m, a, attempt)
    ensures attempt.row in states[m + 1].rows && states[m + 1].rows[attempt.row].attempts == attempt.number
  {
    var j := m + 1;
    assert Next(states[m], states[j]);
    var step :| Enabled(states[m], step) && states[j] == Apply(states[m], step);
    AttemptStep(states[m], step, a);
  }

  /** The claims of a row are told apart by their numbers. */
  lemma ClaimIsUnique(states: seq<World>, m: nat, k: nat, id: nat, n: nat, lease: Lease, other: Lease)
    requires IsRun(Next, states) && Claimed(states, m, id, n, lease) && Claimed(states, k, id, n, other)
    ensures m == k
  {
    if m < k { CountGrows(states, m + 1, k, id); }
    if k < m { CountGrows(states, k + 1, m, id); }
  }

  // ---------------------------------------------------------------------------------------------
  // Whose claim an acknowledgement completes
  // ---------------------------------------------------------------------------------------------

  /** In every run a winning acknowledgement completes the row under a lease that its worker claimed, with
      the number the row's count names. That claim is the one that began the acknowledging attempt if and
      only if the attempt carries that number; otherwise the same worker has claimed the row again
      since. */
  lemma AckedByHolderExactly(states: seq<World>, j: nat, id: nat, a: nat)
    requires IsRun(Next, states) && states[0] == Initial() && j < |states| && AckWins(states[j], id, a)
    ensures var row, attempt := states[j].rows[id], states[j].attempts[a];
            exists m: nat ::
              && m < j && Claimed(states, m, id, row.attempts, row.lease.value)
              && row.lease.value.worker == attempt.worker
              && (Begins(states, m, a, attempt) <==> attempt.number == row.attempts)
              && (attempt.number < row.attempts ==> id in states[m].rows && states[m].rows[id].attempts >= attempt.number)
  {
    var row, attempt := states[j].rows[id], states[j].attempts[a];
    NumbersStaySound(states, j);
    assert NumberSound(states[j].rows, attempt);
    if attempt.number == row.attempts {
      AttemptWasClaimed(states, j, a);
    } else {
      LeaseWasClaimed(states, j, id);
      var m: nat :| m < j && Claimed(states, m, id, row.attempts, row.lease.value);
      AttemptWasClaimed(states, j, a);
      var k: nat :| k < j && Begins(states, k, a, attempt)
                    && Claimed(states, k, attempt.row, attempt.number, Lease(attempt.worker, attempt.until));
      LaterClaim(states, k, m, id, attempt.number, row.attempts, Lease(attempt.worker, attempt.until), row.lease.value);
      if Begins(states, m, a, attempt) { BeginsNumbered(states, m, a, attempt); }
    }
  }

  /** Of two claims of a row the one with the higher number is the later. */
  lemma LaterClaim(states: seq<World>, k: nat, m: nat, id: nat, low: nat, high: nat, first: Lease, second: Lease)
    requires IsRun(Next, states) && low < high
    requires Claimed(states, k, id, low, first) && Claimed(states, m, id, high, second)
    ensures k < m && id in states[m].rows && states[m].rows[id].attempts >= low
  {
    if m <= k { ClaimNotEarlier(states, m, k, id, low, high, first, second); }
    CountGrows(states, k + 1, m, id);
  }

  lemma ClaimNotEarlier(states: seq<World>, m: nat, k: nat, id: nat, low: nat, high: nat, first: Lease, second: Lease)
    requires IsRun(Next, states) && m <= k
    requires Claimed(states, k, id, low, first) && Claimed(states, m, id, high, second)
    ensures high <= low
  {
    CountGrows(states, m + 1, k + 1, id);
  }

  lemma CountGrows(states: seq<World>, i: nat, j: nat, id: nat)
    requires IsRun(Next, states) && i <= j < |states| && id in states[i].rows
    ensures id in states[j].rows && states[i].rows[id].attempts <= states[j].rows[id].attempts
  {
    FinishedIsFinal(states, i, j);
  }

  /** The end of a run in which it does not: the row that `StaleReport` freed is claimed a third time by
      worker 7, and the publication of its second attempt succeeds, whose own lease has not run out. */
  function StaleAck(k: nat): (Step, World)
    requires k <= 2
  {
    var row := Row(0, 0, 1_101, 3, Some(Lease(7, 2_601)), None, None);
    var second, third := Attempt(7, 0, 2_001, Publishing, false, 2), Attempt(7, 0, 2_601, Publishing, false, 3);
    match k
    case 0 => (ClaimRow(0, 7, 1_500, 3), StaleReport(7).1)
    case 1 => (PublishSucceeds(2),
               World(1_101, map[0 := row], map[2 := second, 3 := third], map[0 := Past(0, 3, false, 5)]))
    case _ => (Acknowledge(2, Heard),
               World(1_101, map[0 := row], map[2 := second.(stage := Published), 3 := third],
                     map[0 := Past(0, 3, true, 5)]))
  }

  lemma StaleAckStep(k: nat)
    requires k < 2
    ensures Next(StaleAck(k).1, StaleAck(k + 1).1)
  {
    var (step, w) := StaleAck(k);
    TakesStep(w, step, StaleAck(k + 1).1);
  }

  ghost predicate WinsWithAnotherLease(w: World, id: nat, a: nat) {
    && AckWins(w, id, a) && w.attempts[a].until >= w.now
    && w.attempts[a].number != w.rows[id].attempts
    && w.rows[id].lease != Some(Lease(w.attempts[a].worker, w.attempts[a].until))
  }

  ghost predicate EndsWithStaleAck(states: seq<World>) {
    IsRun(Next, states) && states[0] == Initial() && WinsWithAnotherLease(states[|states| - 1], 0, 2)
  }

  lemma StaleAckRun() returns (states: seq<World>)
    ensures EndsWithStaleAck(states)
  {
    states := seq(10, k requires 0 <= k < 10 => if k < 8 then StaleReport(k).1 else StaleAck(k - 7).1);
    forall i, j | 0 <= i && j == i + 1 && j < |states| ensures Next(states[i], states[j]) {
      if i < 7 { StaleReportStep(i); } else { StaleAckStep(i - 7); }
    }
    assert states[9] == StaleAck(2).1;
  }

  /** An acknowledgement can win with a lease that is not its attempt's, even while the attempt's own lease
      runs on. */
  lemma StaleAckWins()
    ensures exists states :: EndsWithStaleAck(states)
  {
    var states := StaleAckRun();
  }
}
