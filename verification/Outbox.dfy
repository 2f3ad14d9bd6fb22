/** Lease-based outbox delivery: the repository (src/modules/outbox/postgres-outbox.repository.ts), the
    relay worker (src/modules/outbox/outbox-relay.ts) and the post-commit fast path
    (src/modules/chat/manage-chat.use-case.ts:66-92). Times are milliseconds of the database clock. */
module Outbox {
  import opened ChatTypes
  import opened Runs
  import opened Ordering

  /** `locked_by` and `locked_until`, which the schema keeps null together. */
  datatype Lease = Lease(worker: nat, until: nat)

  datatype Row = Row(
    destination: nat, createdAt: nat, availableAt: nat, attempts: nat,
    lease: Option<Lease>, publishedAt: Option<nat>, deadAt: Option<nat>)

  const MAX_LEASE := 300_000
  const MAX_RETRY := 3_600_000

  predicate Pending(row: Row) {
    row.publishedAt.None? && row.deadAt.None?
  }

  predicate Claimable(row: Row, destinations: set<nat>, now: nat) {
    && Pending(row)
    && row.destination in destinations
    && row.availableAt <= now
    && (row.lease.None? || row.lease.value.until < now)
  }

  function Claim(row: Row, worker: nat, until: nat): Row {
    row.(lease := Some(Lease(worker, until)), attempts := row.attempts + 1)
  }

  predicate Owns(row: Row, worker: nat) {
    row.lease.Some? && row.lease.value.worker == worker && Pending(row)
  }

  /** `markPublished`: only the owner of an unexpired lease completes the row. */
  function Publish(row: Row, worker: nat, now: nat): Option<Row> {
    if Owns(row, worker) && row.lease.value.until >= now
    then Some(row.(publishedAt := Some(now), lease := None))
    else None
  }

  /** `markFailed`: the owner by name, expired or not, reschedules the row or marks it dead. */
  function Fail(row: Row, worker: nat, retryDelay: nat, maxAttempts: nat, now: nat): Option<Row> {
    if !Owns(row, worker) then None
    else if row.attempts >= maxAttempts then Some(row.(deadAt := Some(now), lease := None))
    else Some(row.(availableAt := now + retryDelay, lease := None))
  }

  /** The rows a claim may take, in the order of availability, creation and identifier. */
  function Candidates(rows: map<nat, Row>, busy: set<nat>, destinations: set<nat>, now: nat): Ranks {
    map id | id in rows && id !in busy && Claimable(rows[id], destinations, now) ::
      (rows[id].availableAt, rows[id].createdAt)
  }

  /** In the terms of the table: a batch holds only unfinished, unlocked rows of the destinations that are
      available and whose lease, if any, has run out; the earliest available come first, then the
      oldest, then the lowest identifier; and what is left out comes after a full batch. */
  lemma BatchIsEarliest(rows: map<nat, Row>, busy: set<nat>, destinations: set<nat>, now: nat, size: nat, batch: seq<nat>)
    requires IsFirst(Candidates(rows, busy, destinations, now), size, batch)
    ensures |batch| <= size
    ensures forall id <- batch :: Free(rows, busy, destinations, now, id)
    ensures forall i, j | 0 <= i < j < |batch| :: Sooner(rows, batch[i], batch[j])
    ensures forall id | Free(rows, busy, destinations, now, id) && id !in batch ::
              |batch| == size && forall i | 0 <= i < |batch| :: Sooner(rows, batch[i], id)
  {
    var ranks := Candidates(rows, busy, destinations, now);
    forall id ensures id in ranks <==> Free(rows, busy, destinations, now, id) {}
    forall i, j | 0 <= i < j < |batch| ensures Sooner(rows, batch[i], batch[j]) {
      assert Precedes(ranks, batch[i], batch[j]);
      assert batch[i] in ranks && batch[j] in ranks;
    }
    forall id | Free(rows, busy, destinations, now, id) && id !in batch
      ensures |batch| == size && forall i | 0 <= i < |batch| :: Sooner(rows, batch[i], id)
    {
      forall i | 0 <= i < |batch| ensures Sooner(rows, batch[i], id) {
        assert Precedes(ranks, batch[i], id) && batch[i] in ranks;
      }
    }
  }

  ghost predicate Free(rows: map<nat, Row>, busy: set<nat>, destinations: set<nat>, now: nat, id: nat) {
    && id in rows && id !in busy
    && rows[id].publishedAt == None && rows[id].deadAt == None
    && rows[id].destination in destinations && rows[id].availableAt <= now
    && (rows[id].lease.Some? ==> rows[id].lease.value.until < now)
  }

  ghost predicate Sooner(rows: map<nat, Row>, a: nat, b: nat) {
    && a in rows && b in rows
    && if rows[a].availableAt != rows[b].availableAt then rows[a].availableAt < rows[b].availableAt
    else if rows[a].createdAt != rows[b].createdAt then rows[a].createdAt < rows[b].createdAt
    else a < b
  }

  /** Rows after the listed ones were claimed. */
  ghost function ClaimAll(rows: map<nat, Row>, claimed: seq<nat>, worker: nat, until: nat): map<nat, Row> {
    map id | id in rows :: if id in claimed then Claim(rows[id], worker, until) else rows[id]
  }

  function Power2(exponent: nat): (power: nat)
    ensures power >= 1
  {
    if exponent == 0 then 1 else 2 * Power2(exponent - 1)
  }

  function Min(a: nat, b: nat): nat { if a <= b then a else b }

  /** The backoff without jitter. */
  function Exponential(attempts: nat, baseMs: nat, maximumMs: nat): nat {
    Min(maximumMs, baseMs * Power2(if attempts == 0 then 0 else attempts - 1))
  }

  /** What the random number scales: a fifth of the backoff, but at least one millisecond. */
  function Spread(exponential: nat): (spread: real)
    ensures spread >= 1.0
  {
    var fifth := exponential as real * 0.2;
    if fifth < 1.0 then 1.0 else fifth
  }

  /** The random part of the delay, for a random number in `[0, 1)`. */
  function Jitter(exponential: nat, random: real): (jitter: nat)
    requires 0.0 <= random < 1.0
    ensures jitter as real < Spread(exponential)
    ensures random == 0.0 ==> jitter == 0
  {
    FloorOf(random, Spread(exponential));
    (random * Spread(exponential)).Floor
  }

  lemma FloorOf(random: real, bound: real)
    requires 0.0 <= random < 1.0 && bound > 0.0
    ensures 0 <= (random * bound).Floor && (random * bound).Floor as real < bound
    ensures random == 0.0 ==> (random * bound).Floor == 0
  {
    ShrinkReal(random, bound);
  }

  /** It is the whole part of the random share of a fifth of the backoff, or of one millisecond. */
  lemma JitterIsExact(exponential: nat, random: real)
    requires 0.0 <= random < 1.0
    ensures var jitter := Jitter(exponential, random);
            && (exponential >= 5 ==> jitter as real <= random * (exponential as real * 0.2) < jitter as real + 1.0)
            && (exponential < 5 ==> jitter == 0)
  {
    if exponential < 5 { FifthOf(Jitter(exponential, random), exponential); }
  }

  /** It is at most a fifth of the backoff. */
  lemma JitterBound(exponential: nat, random: real)
    requires 0.0 <= random < 1.0
    ensures Jitter(exponential, random) == 0 || 5 * Jitter(exponential, random) <= exponential
  {
    FifthOf(Jitter(exponential, random), exponential);
  }

  lemma ShrinkReal(random: real, bound: real)
    requires 0.0 <= random < 1.0 && bound > 0.0
    ensures 0.0 <= random * bound < bound && (random == 0.0 ==> random * bound == 0.0)
  {
    assert (1.0 - random) * bound > 0.0;
    assert random * bound == bound - (1.0 - random) * bound;
  }

  lemma FifthOf(jitter: nat, exponential: nat)
    requires jitter as real < Spread(exponential)
    ensures jitter == 0 || 5 * jitter <= exponential
  {
    if exponential >= 5 {
      assert (5 * jitter) as real < exponential as real;
    } else {
      assert jitter < 1;
    }
  }

  /** `calculateRetryDelay`, with the random number in `[0, 1)` as a parameter: never earlier than the
      plain backoff and always inside the configured range. */
  function RetryDelay(attempts: nat, baseMs: nat, maximumMs: nat, random: real): (delay: nat)
    requires baseMs <= maximumMs && 0.0 <= random < 1.0
    ensures baseMs <= Exponential(attempts, baseMs, maximumMs) <= delay <= maximumMs
  {
    var exponential := Exponential(attempts, baseMs, maximumMs);
    ScaleUp(baseMs, Power2(if attempts == 0 then 0 else attempts - 1));
    Min(maximumMs, exponential + Jitter(exponential, random))
  }

  /** And never later than a fifth beyond it. */
  lemma RetryDelayIsTight(attempts: nat, baseMs: nat, maximumMs: nat, random: real)
    requires baseMs <= maximumMs && 0.0 <= random < 1.0
    ensures var plain, delay := Exponential(attempts, baseMs, maximumMs), RetryDelay(attempts, baseMs, maximumMs, random);
            5 * delay <= 6 * plain && (random == 0.0 ==> delay == plain)
  {
    var plain := Exponential(attempts, baseMs, maximumMs);
    JitterBound(plain, random);
  }

  lemma ScaleUp(base: nat, factor: nat)
    requires factor >= 1
    ensures base * factor >= base
  {
  }

  /** The first attempt waits for the base delay. */
  lemma FirstBackoff(baseMs: nat, maximumMs: nat)
    requires baseMs <= maximumMs
    ensures Exponential(0, baseMs, maximumMs) == Exponential(1, baseMs, maximumMs) == baseMs
  {
    assert Power2(0) == 1;
  }

  /** Backoff doubles until it reaches the maximum, so it never shrinks as attempts grow. */
  lemma BackoffGrows(attempts: nat, baseMs: nat, maximumMs: nat)
    requires attempts >= 1
    ensures Exponential(attempts + 1, baseMs, maximumMs) == Min(maximumMs, 2 * Exponential(attempts, baseMs, maximumMs))
  {
    assert Power2(attempts) == 2 * Power2(attempts - 1);
    assert baseMs * Power2(attempts) == 2 * (baseMs * Power2(attempts - 1));
  }

  // ---------------------------------------------------------------------------------------------
  // The repository and the relay
  // ---------------------------------------------------------------------------------------------

  class OutboxRepository {
    var rows: map<nat, Row>

    constructor (rows: map<nat, Row>)
      ensures this.rows == rows
    {
      this.rows := rows;
    }

    /** `busy` are rows locked by concurrent transactions, which are skipped. Candidates are selected at
        `now` and their leases start at `later`. Arguments out of range are refused. */
    method ClaimBatch(worker: nat, batchSize: nat, leaseMs: nat, destinations: set<nat>,
                      busy: set<nat>, now: nat, later: nat)
      returns (accepted: bool, claimed: seq<nat>)
      requires now <= later
      modifies this
      ensures accepted <==> 1 <= batchSize <= 500 && 1_000 <= leaseMs <= 300_000 && 1 <= |destinations| <= 3
      ensures forall id <- claimed :: id in old(rows)
      ensures rows == ClaimAll(old(rows), claimed, worker, later + leaseMs)
      ensures accepted ==> IsFirst(Candidates(old(rows), busy, destinations, now), batchSize, claimed)
      ensures forall id <- claimed :: id in rows && rows[id] == old(rows)[id].(
                lease := Some(Lease(worker, later + leaseMs)), attempts := old(rows)[id].attempts + 1)
      ensures rows.Keys == old(rows).Keys && forall id <- rows | id !in claimed :: rows[id] == old(rows)[id]
      ensures !accepted ==> claimed == []
    {
      claimed := [];
      accepted := 1 <= batchSize <= 500 && 1_000 <= leaseMs <= MAX_LEASE && 1 <= |destinations| <= 3;
      if !accepted { return; }
      claimed := First(Candidates(rows, busy, destinations, now), batchSize);
      FirstCounts(Candidates(rows, busy, destinations, now), batchSize, claimed);
      LeaseAll(claimed, worker, later + leaseMs);
    }

    method LeaseAll(claimed: seq<nat>, worker: nat, until: nat)
      requires Distinct(claimed) && forall id <- claimed :: id in rows
      modifies this
      ensures rows == ClaimAll(old(rows), claimed, worker, until)
    {
      for i := 0 to |claimed|
        invariant rows == ClaimAll(old(rows), claimed[..i], worker, until)
      {
        assert claimed[..i + 1] == claimed[..i] + [claimed[i]] && claimed[i] !in claimed[..i];
        assert claimed[i] in claimed;
        rows := rows[claimed[i] := Claim(rows[claimed[i]], worker, until)];
      }
      assert claimed[..|claimed|] == claimed;
    }

    method MarkPublished(id: nat, worker: nat, now: nat) returns (owned: bool)
      modifies this
      ensures owned <==> id in old(rows) && Publish(old(rows)[id], worker, now).Some?
      ensures rows == if owned then old(rows)[id := Publish(old(rows)[id], worker, now).value] else old(rows)
    {
      if id !in rows { return false; }
      var row := rows[id];
      if !Owns(row, worker) || row.lease.value.until < now { return false; }
      rows := rows[id := row.(publishedAt := Some(now), lease := None)];
      return true;
    }

    /** `None` is an argument out of range or a lost lease; otherwise the flag says whether the row is
        dead now. */
    method MarkFailed(id: nat, worker: nat, retryDelay: nat, maxAttempts: nat, now: nat) returns (dead: Option<bool>)
      modifies this
      ensures dead.Some? <==>
                && retryDelay <= 3_600_000 && 1 <= maxAttempts <= 100
                && id in old(rows) && Fail(old(rows)[id], worker, retryDelay, maxAttempts, now).Some?
      ensures dead.Some? ==>
                && rows == old(rows)[id := Fail(old(rows)[id], worker, retryDelay, maxAttempts, now).value]
                && dead.value == rows[id].deadAt.Some?
      ensures dead.None? ==> rows == old(rows)
    {
      if retryDelay > MAX_RETRY || maxAttempts < 1 || maxAttempts > 100 { return None; }
      if id !in rows || !Owns(rows[id], worker) { return None; }
      var row := rows[id];
      if row.attempts >= maxAttempts {
        rows := rows[id := row.(deadAt := Some(now), lease := None)];
        return Some(true);
      }
      rows := rows[id := row.(availableAt := now + retryDelay, lease := None)];
      return Some(false);
    }
  }

  /** What becomes of a statement sent to the database: its answer arrives, it takes effect but its answer
      is lost, or it never takes effect. The last two raise an error in the caller. */
  datatype Fate = Heard | Unheard | Unsent

  /** How the handler's publication of a delivery ends, when, and what becomes of the report. */
  datatype Publication = Publication(succeeds: bool, endsAt: nat, random: real, report: Fate)

  datatype RelayConfig = RelayConfig(
    batchSize: nat, concurrency: nat, leaseMs: nat, maxAttempts: nat, baseRetryMs: nat, maxRetryMs: nat)

  predicate ValidConfig(config: RelayConfig) {
    && 1 <= config.batchSize <= 500 && config.concurrency >= 1
    && 1_000 <= config.leaseMs <= MAX_LEASE
    && 1 <= config.maxAttempts <= 100
    && config.baseRetryMs <= config.maxRetryMs <= MAX_RETRY
  }

  /** What one `publishOne` writes; `None` is a lost lease or a statement that failed. */
  function Report(row: Row, worker: nat, config: RelayConfig, attempts: nat, p: Publication): Option<Row>
    requires ValidConfig(config) && 0.0 <= p.random < 1.0
  {
    if p.report.Unsent? then None
    else if p.succeeds then Publish(row, worker, p.endsAt)
    else Fail(row, worker, RetryDelay(attempts, config.baseRetryMs, config.maxRetryMs, p.random),
              config.maxAttempts, p.endsAt)
  }

  /** The row one `publishOne` leaves behind. */
  function Settle(row: Row, worker: nat, config: RelayConfig, attempts: nat, p: Publication): Row
    requires ValidConfig(config) && 0.0 <= p.random < 1.0
  {
    var written := Report(row, worker, config, attempts, p);
    if written.Some? then written.value else row
  }

  /** Whether its promise resolves. */
  predicate Resolves(row: Row, worker: nat, config: RelayConfig, attempts: nat, p: Publication)
    requires ValidConfig(config) && 0.0 <= p.random < 1.0
  {
    p.report.Heard? && Report(row, worker, config, attempts, p).Some?
  }

  /** What one delivery means for its row, in the terms of the table: only a successful publication makes it
      published, and it does if the statement is sent while the worker still owns an unexpired lease; a
      failed one of an owner leaves it unleased, dead once its attempts are used up and otherwise pending
      until a delay within the configured range has passed; anything else leaves it alone. */
  lemma DeliveryOutcome(row: Row, worker: nat, config: RelayConfig, attempts: nat, p: Publication)
    requires ValidConfig(config) && 0.0 <= p.random < 1.0
    ensures var after := Settle(row, worker, config, attempts, p);
            var sent := p.report != Unsent && row.publishedAt == None && row.deadAt == None
                        && row.lease.Some? && row.lease.value.worker == worker;
            && (sent && p.succeeds && row.lease.value.until >= p.endsAt ==>
                  after == row.(publishedAt := Some(p.endsAt), lease := None))
            && (sent && !p.succeeds && row.attempts >= config.maxAttempts ==>
                  after == row.(deadAt := Some(p.endsAt), lease := None))
            && (sent && !p.succeeds && row.attempts < config.maxAttempts ==>
                  && after == row.(availableAt := after.availableAt, lease := None)
                  && p.endsAt + config.baseRetryMs <= after.availableAt <= p.endsAt + config.maxRetryMs)
            && (!sent || (p.succeeds && row.lease.value.until < p.endsAt) ==> after == row)
            && (Resolves(row, worker, config, attempts, p) <==>
                  sent && p.report == Heard && (p.succeeds ==> row.lease.value.until >= p.endsAt))
  {
  }

  /** The rows after the report of one delivery; a row that is gone counts as a lost lease. */
  function ReportedRows(rows: map<nat, Row>, id: nat, worker: nat, config: RelayConfig, attempts: nat, p: Publication)
    : map<nat, Row>
    requires ValidConfig(config) && 0.0 <= p.random < 1.0
  {
    if id in rows then rows[id := Settle(rows[id], worker, config, attempts, p)] else rows
  }

  predicate ReportResolves(rows: map<nat, Row>, id: nat, worker: nat, config: RelayConfig, attempts: nat, p: Publication)
    requires ValidConfig(config) && 0.0 <= p.random < 1.0
  {
    id in rows && Resolves(rows[id], worker, config, attempts, p)
  }

  class OutboxRelay {
    const repository: OutboxRepository
    const config: RelayConfig

    constructor (repository: OutboxRepository, config: RelayConfig)
      requires ValidConfig(config)
      ensures this.repository == repository && this.config == config
    {
      this.repository := repository;
      this.config := config;
    }

    method PublishOne(id: nat, worker: nat, attempts: nat, p: Publication) returns (settled: bool)
      requires ValidConfig(config) && 0.0 <= p.random < 1.0 && id in repository.rows
      modifies repository
      ensures settled <==> Resolves(old(repository.rows)[id], worker, config, attempts, p)
      ensures repository.rows == old(repository.rows)[id := Settle(old(repository.rows)[id], worker, config, attempts, p)]
      ensures old(repository.rows)[id].publishedAt.None? && repository.rows[id].publishedAt.Some? ==>
                p.succeeds && repository.rows[id].publishedAt.value == p.endsAt
      ensures old(repository.rows)[id].deadAt.None? && repository.rows[id].deadAt.Some? ==> !p.succeeds
      ensures repository.rows[id].availableAt != old(repository.rows)[id].availableAt ==>
                !p.succeeds && repository.rows[id].availableAt >= p.endsAt + config.baseRetryMs
    {
      DeliveryOutcome(repository.rows[id], worker, config, attempts, p);
      if p.report.Unsent? {
        assert repository.rows == repository.rows[id := repository.rows[id]];
        return false;
      }
      if !p.succeeds {
        var delay := RetryDelay(attempts, config.baseRetryMs, config.maxRetryMs, p.random);
        var dead := repository.MarkFailed(id, worker, delay, config.maxAttempts, p.endsAt);
        return dead.Some? && p.report.Heard?;
      }
      var owned := repository.MarkPublished(id, worker, p.endsAt);
      settled := owned && p.report.Heard?;
    }

    /** The same for a row that may be gone. */
    method PublishAny(id: nat, worker: nat, attempts: nat, p: Publication) returns (settled: bool)
      requires ValidConfig(config) && 0.0 <= p.random < 1.0
      modifies repository
      ensures settled <==> ReportResolves(old(repository.rows), id, worker, config, attempts, p)
      ensures repository.rows == ReportedRows(old(repository.rows), id, worker, config, attempts, p)
    {
      if id !in repository.rows { return false; }
      settled := PublishOne(id, worker, attempts, p);
    }

    /** One claim, then windows of bounded concurrency. Every delivery of the first `reached` is
        settled exactly once and no other row changes; the run stops early, leaving the rest leased,
        exactly when the report of a delivery it reached lost its lease or failed. */
    method RunOnce(worker: nat, destinations: set<nat>, busy: set<nat>, now: nat, later: nat,
                   publications: map<nat, Publication>)
      returns (claimed: seq<nat>, reached: nat, completed: bool)
      requires ValidConfig(config) && now <= later && |destinations| <= 3
      requires Planned(repository.rows, publications)
      modifies repository
      ensures forall id <- claimed :: id in old(repository.rows)
      ensures destinations == {} ==> claimed == []
      ensures destinations != {} ==>
                IsFirst(Candidates(old(repository.rows), busy, destinations, now), config.batchSize, claimed)
      ensures reached <= |claimed| && (completed ==> reached == |claimed|)
      ensures var leased := ClaimAll(old(repository.rows), claimed, worker, later + config.leaseMs);
              && Planned(leased, publications)
              && repository.rows == Mix(leased, Targets(leased, worker, publications), Elements(claimed[..reached]))
              && (completed <==> Elements(claimed[..reached]) <= Resolving(leased, worker, publications))
    {
      claimed, reached, completed := [], 0, true;
      ghost var original := repository.rows;
      if destinations == {} { return; }
      assert |destinations| >= 1;
      var accepted;
      accepted, claimed := repository.ClaimBatch(worker, config.batchSize, config.leaseMs, destinations, busy, now, later);
      FirstCounts(Candidates(original, busy, destinations, now), config.batchSize, claimed);
      ghost var leased := ClaimAll(original, claimed, worker, later + config.leaseMs);
      PlanTargets(leased, worker, publications);
      MixNothing(leased, Targets(leased, worker, publications));
      reached, completed := PublishWindows(claimed, worker, publications, leased, Targets(leased, worker, publications),
                                           Resolving(leased, worker, publications));
    }

    /** The windows in order, until one of them has a promise that rejects. */
    method PublishWindows(claimed: seq<nat>, worker: nat, publications: map<nat, Publication>,
                          ghost leased: map<nat, Row>, ghost targets: map<nat, Row>, ghost resolving: set<nat>)
      returns (reached: nat, completed: bool)
      requires ValidConfig(config) && Distinct(claimed) && Elements(claimed) <= leased.Keys && targets.Keys == leased.Keys
      requires forall id <- leased :: Target(leased, targets, resolving, id, worker, publications)
      requires repository.rows == Mix(leased, targets, {})
      modifies repository
      ensures reached <= |claimed| && (completed ==> reached == |claimed|)
      ensures repository.rows == Mix(leased, targets, Elements(claimed[..reached]))
      ensures completed <==> Elements(claimed[..reached]) <= resolving
    {
      reached, completed := 0, true;
      assert Elements(claimed[..0]) == {};
      while reached < |claimed| && completed
        invariant 0 <= reached <= |claimed|
        invariant repository.rows == Mix(leased, targets, Elements(claimed[..reached]))
        invariant completed <==> Elements(claimed[..reached]) <= resolving
        decreases |claimed| - reached
      {
        var end := if reached + config.concurrency < |claimed| then reached + config.concurrency else |claimed|;
        WindowSplits(claimed, reached, end);
        completed := PublishWindow(Elements(claimed[reached..end]), worker, publications,
                                   leased, targets, resolving, Elements(claimed[..reached]));
        reached := end;
      }
    }

    lemma PlanTargets(leased: map<nat, Row>, worker: nat, publications: map<nat, Publication>)
      requires ValidConfig(config) && Planned(leased, publications)
      ensures forall id <- leased ::
                Target(leased, Targets(leased, worker, publications), Resolving(leased, worker, publications), id,
                       worker, publications)
    {
    }

    /** One window. Its deliveries run concurrently, so they settle in any order; the rows left behind do
        not depend on it. The result says whether every promise resolved. */
    method PublishWindow(window: set<nat>, worker: nat, publications: map<nat, Publication>,
                         ghost leased: map<nat, Row>, ghost targets: map<nat, Row>, ghost resolving: set<nat>,
                         ghost before: set<nat>)
      returns (resolved: bool)
      requires ValidConfig(config) && window <= leased.Keys && window !! before && targets.Keys == leased.Keys
      requires forall id <- window :: Target(leased, targets, resolving, id, worker, publications)
      requires repository.rows == Mix(leased, targets, before) && before <= resolving
      modifies repository
      ensures repository.rows == Mix(leased, targets, before + window)
      ensures resolved <==> before + window <= resolving
    {
      resolved := true;
      var left := window;
      ghost var done := before;
      while left != {}
        invariant left <= window && done !! left && done + left == before + window
        invariant repository.rows == Mix(leased, targets, done)
        invariant resolved <==> done <= resolving
        decreases |left|
      {
        var id :| id in left;
        var settled := PublishPlanned(id, worker, publications, leased, targets, resolving, done);
        left, done := left - {id}, done + {id};
        resolved := resolved && settled;
      }
    }

    method PublishPlanned(id: nat, worker: nat, publications: map<nat, Publication>, ghost leased: map<nat, Row>,
                          ghost targets: map<nat, Row>, ghost resolving: set<nat>, ghost done: set<nat>)
      returns (settled: bool)
      requires ValidConfig(config) && Target(leased, targets, resolving, id, worker, publications)
      requires repository.rows == Mix(leased, targets, done) && id !in done
      modifies repository
      ensures repository.rows == Mix(leased, targets, done + {id})
      ensures settled <==> id in resolving
    {
      MixOne(leased, targets, done, id);
      settled := PublishOne(id, worker, repository.rows[id].attempts, publications[id]);
    }

    ghost predicate Planned(rows: map<nat, Row>, publications: map<nat, Publication>) {
      forall id <- rows :: id in publications && 0.0 <= publications[id].random < 1.0
    }

    /** The settled form of every row, and the rows whose promise resolves. */
    ghost function Targets(leased: map<nat, Row>, worker: nat, publications: map<nat, Publication>): map<nat, Row>
      requires ValidConfig(config) && Planned(leased, publications)
    {
      map id | id in leased :: Settle(leased[id], worker, config, leased[id].attempts, publications[id])
    }

    ghost function Resolving(leased: map<nat, Row>, worker: nat, publications: map<nat, Publication>): set<nat>
      requires ValidConfig(config) && Planned(leased, publications)
    {
      set id | id in leased && Resolves(leased[id], worker, config, leased[id].attempts, publications[id])
    }

    ghost predicate Target(leased: map<nat, Row>, targets: map<nat, Row>, resolving: set<nat>, id: nat,
                           worker: nat, publications: map<nat, Publication>)
      requires ValidConfig(config)
    {
      && id in leased && id in targets && id in publications && 0.0 <= publications[id].random < 1.0
      && targets[id] == Settle(leased[id], worker, config, leased[id].attempts, publications[id])
      && (id in resolving <==> Resolves(leased[id], worker, config, leased[id].attempts, publications[id]))
    }
  }

  /** The leased rows, of which those in `done` were settled. */
  ghost function Mix(leased: map<nat, Row>, targets: map<nat, Row>, done: set<nat>): map<nat, Row> {
    map id | id in leased :: if id in done && id in targets then targets[id] else leased[id]
  }

  lemma MixOne(leased: map<nat, Row>, targets: map<nat, Row>, done: set<nat>, id: nat)
    requires id in leased && id in targets && id !in done
    ensures Mix(leased, targets, done)[id] == leased[id]
    ensures Mix(leased, targets, done + {id}) == Mix(leased, targets, done)[id := targets[id]]
  {
  }

  lemma MixNothing(leased: map<nat, Row>, targets: map<nat, Row>)
    ensures Mix(leased, targets, {}) == leased
  {
  }

  lemma WindowSplits(claimed: seq<nat>, from: nat, to: nat)
    requires Distinct(claimed) && from <= to <= |claimed|
    ensures Elements(claimed[from..to]) !! Elements(claimed[..from])
    ensures Elements(claimed[..from]) + Elements(claimed[from..to]) == Elements(claimed[..to])
    ensures Elements(claimed[from..to]) <= Elements(claimed)
  {
    assert claimed[..to] == claimed[..from] + claimed[from..to];
    forall x <- claimed[from..to] ensures x in claimed && x !in claimed[..from] {
      var i :| from <= i < to && claimed[i] == x;
    }
  }

  /** The row `publishFastPath` leaves behind: a failed publication and a lost or failed acknowledgement
      all end in `markFailed`, whose own failure is ignored. */
  function SettleFastPath(row: Row, owner: nat, succeeds: bool, ack: Fate, ackAt: nat, report: Fate, failAt: nat,
                          retryMs: nat, maxAttempts: nat): Row
  {
    var acknowledged := if succeeds && !ack.Unsent? then Publish(row, owner, ackAt) else None;
    if acknowledged.Some? then acknowledged.value
    else if report.Unsent? then row
    else
      var failed := Fail(row, owner, retryMs, maxAttempts, failAt);
      if failed.Some? then failed.value else row
  }

  /** The same for the fast path, whose report follows every acknowledgement that is not confirmed. */
  lemma FastPathOutcome(row: Row, owner: nat, succeeds: bool, ack: Fate, ackAt: nat, report: Fate, failAt: nat,
                        retryMs: nat, maxAttempts: nat)
    ensures var after := SettleFastPath(row, owner, succeeds, ack, ackAt, report, failAt, retryMs, maxAttempts);
            var owned := row.publishedAt == None && row.deadAt == None && row.lease.Some? && row.lease.value.worker == owner;
            var acknowledged := owned && succeeds && ack != Unsent && row.lease.value.until >= ackAt;
            && (acknowledged ==> after == row.(publishedAt := Some(ackAt), lease := None))
            && (!acknowledged && owned && report != Unsent && row.attempts >= maxAttempts ==>
                  after == row.(deadAt := Some(failAt), lease := None))
            && (!acknowledged && owned && report != Unsent && row.attempts < maxAttempts ==>
                  after == row.(availableAt := failAt + retryMs, lease := None))
            && (!owned || (!acknowledged && report == Unsent) ==> after == row)
  {
  }

  method PublishFastPath(repository: OutboxRepository, delivery: Option<nat>, owner: nat, succeeds: bool,
                         ack: Fate, ackAt: nat, report: Fate, failAt: nat, retryMs: nat, maxAttempts: nat)
    requires delivery.Some? ==> delivery.value in repository.rows
    requires retryMs <= MAX_RETRY && 1 <= maxAttempts <= 100
    modifies repository
    ensures delivery.None? ==> repository.rows == old(repository.rows)
    ensures delivery.Some? ==>
              repository.rows == old(repository.rows)[delivery.value :=
                SettleFastPath(old(repository.rows)[delivery.value], owner, succeeds, ack, ackAt, report, failAt,
                               retryMs, maxAttempts)]
    ensures delivery.Some? ==>
              && delivery.value in repository.rows
              && var before, after := old(repository.rows)[delivery.value], repository.rows[delivery.value];
                 && (before.publishedAt.None? && after.publishedAt.Some? ==> succeeds)
                 && (succeeds && ack.Heard? && Owns(before, owner) && before.lease.value.until >= ackAt ==>
                       after.publishedAt == Some(ackAt))
  {
    if delivery.None? { return; }
    if succeeds && !ack.Unsent? {
      var owned := repository.MarkPublished(delivery.value, owner, ackAt);
      if owned && ack.Heard? { return; }
    }
    if !report.Unsent? {
      var _ := repository.MarkFailed(delivery.value, owner, retryMs, maxAttempts, failAt);
    } else {
      assert repository.rows == repository.rows[delivery.value := repository.rows[delivery.value]];
    }
  }

  // ---------------------------------------------------------------------------------------------
  // Many workers and the fast path, with crashes
  // ---------------------------------------------------------------------------------------------

  /** Where one attempt to deliver a row stands. `Unacknowledged` is the fast path after an
      acknowledgement that lost its lease or failed: it then reports a failure. */
  datatype Stage = Publishing | Published | Refused | Unacknowledged

  /** `number` is the row's attempt count that the claim returned with the delivery. */
  datatype Attempt = Attempt(worker: nat, row: nat, until: nat, stage: Stage, fastPath: bool, number: nat)

  /** What happened to a row so far; no step reads it. */
  datatype Past = Past(initialAttempts: nat, claims: nat, delivered: bool, deadLimit: nat)

  datatype World = World(now: nat, rows: map<nat, Row>, attempts: map<nat, Attempt>, past: map<nat, Past>)

  datatype Step =
    | Tick(now: nat)
    | InsertEvent(row: nat, destination: nat)
    | InsertLeased(row: nat, destination: nat, owner: nat, leaseMs: nat, attempt: nat)
    | ClaimRow(row: nat, worker: nat, leaseMs: nat, attempt: nat)
    | PublishSucceeds(attempt: nat)
    | PublishFails(attempt: nat)
    | Acknowledge(attempt: nat, fate: Fate)
    | ReportFailure(attempt: nat, retryDelay: nat, maxAttempts: nat)
    | Crash(attempt: nat)

  ghost predicate Enabled(w: World, step: Step) {
    match step
    case Tick(now) => now >= w.now
    case InsertEvent(row, _) => row !in w.rows
    case InsertLeased(row, _, _, leaseMs, attempt) =>
      row !in w.rows && attempt !in w.attempts && leaseMs <= MAX_LEASE
    case ClaimRow(row, worker, leaseMs, attempt) =>
      && row in w.rows && Claimable(w.rows[row], {w.rows[row].destination}, w.now)
      && attempt !in w.attempts && 1_000 <= leaseMs <= MAX_LEASE
    case PublishSucceeds(attempt) => attempt in w.attempts && w.attempts[attempt].stage.Publishing?
    case PublishFails(attempt) => attempt in w.attempts && w.attempts[attempt].stage.Publishing?
    case Acknowledge(attempt, _) => attempt in w.attempts && w.attempts[attempt].stage.Published?
    case ReportFailure(attempt, retryDelay, maxAttempts) =>
      && attempt in w.attempts && (w.attempts[attempt].stage.Refused? || w.attempts[attempt].stage.Unacknowledged?)
      && retryDelay <= MAX_RETRY && maxAttempts >= 1
    case Crash(attempt) => attempt in w.attempts
  }

  function SetStage(w: World, attempt: nat, stage: Stage): World
    requires attempt in w.attempts
  {
    w.(attempts := w.attempts[attempt := w.attempts[attempt].(stage := stage)])
  }

  function Insert(w: World, row: nat, value: Row): World {
    w.(rows := w.rows[row := value], past := w.past[row := Past(value.attempts, 0, false, 0)])
  }

  function Write(w: World, row: nat, value: Row): World {
    w.(rows := w.rows[row := value])
  }

  function Apply(w: World, step: Step): World
    requires Enabled(w, step) && w.past.Keys == w.rows.Keys
    requires forall a <- w.attempts :: w.attempts[a].row in w.rows
  {
    match step
    case Tick(now) => w.(now := now)
    case InsertEvent(row, destination) => Insert(w, row, Row(destination, w.now, w.now, 0, None, None, None))
    case InsertLeased(row, destination, owner, leaseMs, attempt) =>
      var until := w.now + leaseMs;
      Insert(w, row, Row(destination, w.now, w.now, 1, Some(Lease(owner, until)), None, None))
        .(attempts := w.attempts[attempt := Attempt(owner, row, until, Publishing, true, 1)])
    case ClaimRow(row, worker, leaseMs, attempt) =>
      var until := w.now + leaseMs;
      Write(w, row, Claim(w.rows[row], worker, until))
        .(attempts := w.attempts[attempt := Attempt(worker, row, until, Publishing, false, w.rows[row].attempts + 1)],
          past := w.past[row := w.past[row].(claims := w.past[row].claims + 1)])
    case PublishSucceeds(attempt) =>
      var row := w.attempts[attempt].row;
      SetStage(w, attempt, Published).(past := w.past[row := w.past[row].(delivered := true)])
    case PublishFails(attempt) => SetStage(w, attempt, Refused)
    case Acknowledge(attempt, fate) =>
      var a := w.attempts[attempt];
      var written := if fate.Unsent? then None else Publish(w.rows[a.row], a.worker, w.now);
      var t := if written.Some? then Write(w, a.row, written.value) else w;
      if a.fastPath && !(written.Some? && fate.Heard?) then SetStage(t, attempt, Unacknowledged)
      else t.(attempts := w.attempts - {attempt})
    case ReportFailure(attempt, retryDelay, maxAttempts) =>
      var a := w.attempts[attempt];
      var written := Fail(w.rows[a.row], a.worker, retryDelay, maxAttempts, w.now);
      if written.None? then w.(attempts := w.attempts - {attempt})
      else
        Write(w, a.row, written.value)
          .(attempts := w.attempts - {attempt}, past := w.past[a.row := w.past[a.row].(deadLimit := maxAttempts)])
    case Crash(attempt) => w.(attempts := w.attempts - {attempt})
  }

  /** What holds of every row: published and dead exclude each other and end the lease, attempts count
      claims, a dead row had used up its budget, a published one was really published, and the next
      attempt is never further away than the longest retry or lease. */
  ghost predicate RowSound(now: nat, row: Row, past: Past) {
    && (row.publishedAt.None? || row.deadAt.None?)
    && (!Pending(row) ==> row.lease.None?)
    && row.attempts == past.initialAttempts + past.claims
    && (row.deadAt.Some? ==> row.attempts >= past.deadLimit >= 1)
    && (row.publishedAt.Some? ==> past.delivered)
    && row.availableAt <= now + MAX_RETRY
    && (row.lease.Some? ==> row.lease.value.until <= now + MAX_LEASE)
  }

  /** An attempt that got past its publication really delivered its row. */
  ghost predicate AttemptSound(past: map<nat, Past>, a: Attempt) {
    a.row in past && (a.stage.Published? || a.stage.Unacknowledged? ==> past[a.row].delivered)
  }

  ghost predicate Inv(w: World) {
    && w.past.Keys == w.rows.Keys
    && (forall id <- w.rows :: RowSound(w.now, w.rows[id], w.past[id]))
    && (forall a <- w.attempts :: AttemptSound(w.past, w.attempts[a]))
  }

  lemma WriteKeepsInv(w: World, step: Step)
    requires Inv(w) && Enabled(w, step) && (step.Acknowledge? || step.ReportFailure?)
    ensures Inv(Apply(w, step))
  {
    var t := Apply(w, step);
    var mine := w.attempts[step.attempt];
    assert AttemptSound(w.past, mine) && RowSound(w.now, w.rows[mine.row], w.past[mine.row]);
    forall a <- t.attempts ensures AttemptSound(t.past, t.attempts[a]) {
      assert AttemptSound(w.past, w.attempts[a]);
    }
  }

  lemma ClaimKeepsInv(w: World, step: Step)
    requires Inv(w) && Enabled(w, step) && (step.ClaimRow? || step.InsertEvent? || step.InsertLeased?)
    ensures Inv(Apply(w, step))
  {
    var t := Apply(w, step);
    forall a <- t.attempts ensures AttemptSound(t.past, t.attempts[a]) {
      if a in w.attempts { assert AttemptSound(w.past, w.attempts[a]); }
    }
  }

  lemma StageKeepsInv(w: World, step: Step)
    requires Inv(w) && Enabled(w, step)
    requires step.Tick? || step.PublishSucceeds? || step.PublishFails? || step.Crash?
    ensures Inv(Apply(w, step))
  {
    var t := Apply(w, step);
    forall a <- t.attempts ensures AttemptSound(t.past, t.attempts[a]) {
      assert AttemptSound(w.past, w.attempts[a]);
    }
  }

  /** Every step of every worker keeps the row invariant. */
  lemma StepKeepsInv(w: World, step: Step)
    requires Inv(w) && Enabled(w, step)
    ensures Inv(Apply(w, step))
  {
    if step.Acknowledge? || step.ReportFailure? {
      WriteKeepsInv(w, step);
    } else if step.ClaimRow? || step.InsertEvent? || step.InsertLeased? {
      ClaimKeepsInv(w, step);
    } else {
      StageKeepsInv(w, step);
    }
  }

  // ---------------------------------------------------------------------------------------------
  // One delivery of the relay is a sequence of steps
  // ---------------------------------------------------------------------------------------------

  /** The steps of one delivery from its publication on: the handler's result, the time it took, and the
      report, or a crash in its place if the statement is never sent after a failure. */
  function DeliverySteps(config: RelayConfig, attempts: nat, attempt: nat, p: Publication): (Step, Step, Step)
    requires ValidConfig(config) && 0.0 <= p.random < 1.0
  {
    (if p.succeeds then PublishSucceeds(attempt) else PublishFails(attempt),
     Tick(p.endsAt),
     if p.succeeds then Acknowledge(attempt, p.report)
     else if p.report.Unsent? then Crash(attempt)
     else ReportFailure(attempt, RetryDelay(attempts, config.baseRetryMs, config.maxRetryMs, p.random), config.maxAttempts))
  }

  /** What `publishOne` does to the rows is what those steps do, whatever the rows have become. */
  lemma DeliveryIsSteps(w: World, config: RelayConfig, attempts: nat, attempt: nat, p: Publication)
    requires ValidConfig(config) && 0.0 <= p.random < 1.0 && w.now <= p.endsAt && Inv(w)
    requires attempt in w.attempts && w.attempts[attempt].stage.Publishing? && !w.attempts[attempt].fastPath
    requires w.attempts[attempt].row in w.rows
    ensures var (publish, tick, report) := DeliverySteps(config, attempts, attempt, p);
            && Enabled(w, publish)
            && var u := Apply(w, publish);
               && Linked(u) && Enabled(u, tick)
               && var v := Apply(u, tick);
                  && Linked(v) && Enabled(v, report)
                  && Apply(v, report).rows
                     == ReportedRows(w.rows, w.attempts[attempt].row, w.attempts[attempt].worker, config, attempts, p)
  {
    var (publish, tick, report) := DeliverySteps(config, attempts, attempt, p);
    assert Linked(w);
    var u := Apply(w, publish);
    var v := Apply(u, tick);
    assert v.rows == w.rows && v.attempts[attempt].row == w.attempts[attempt].row;
    ReportIsStep(v, config, attempts, attempt, p);
  }

  lemma ReportIsStep(v: World, config: RelayConfig, attempts: nat, attempt: nat, p: Publication)
    requires ValidConfig(config) && 0.0 <= p.random < 1.0 && v.now == p.endsAt && Linked(v)
    requires attempt in v.attempts && !v.attempts[attempt].fastPath
    requires v.attempts[attempt].stage == (if p.succeeds then Published else Refused)
    ensures var report := DeliverySteps(config, attempts, attempt, p).2;
            && Enabled(v, report)
            && Apply(v, report).rows
               == ReportedRows(v.rows, v.attempts[attempt].row, v.attempts[attempt].worker, config, attempts, p)
  {
    var id := v.attempts[attempt].row;
    assert v.rows == v.rows[id := v.rows[id]];
  }

  // ---------------------------------------------------------------------------------------------
  // Exclusive leases
  // ---------------------------------------------------------------------------------------------

  ghost predicate Unexpired(w: World, a: nat) {
    a in w.attempts && w.attempts[a].until >= w.now
  }

  /** The row is finished or still names this attempt's lease. */
  predicate HoldsRow(rows: map<nat, Row>, a: Attempt) {
    a.row in rows && (!Pending(rows[a.row]) || rows[a.row].lease == Some(Lease(a.worker, a.until)))
  }

  /** Every unexpired attempt holds its row, and no row has two of them. */
  ghost predicate Exclusive(w: World) {
    && (forall a | Unexpired(w, a) :: HoldsRow(w.rows, w.attempts[a]))
    && (forall a, b | Unexpired(w, a) && Unexpired(w, b) && w.attempts[a].row == w.attempts[b].row :: a == b)
  }

  /** `markFailed` goes by the worker's name, so a late report of one attempt reschedules a row that
      another unexpired attempt of the same worker holds. */
  ghost predicate Steals(w: World, step: Step) {
    && step.ReportFailure?
    && step.attempt in w.attempts
    && var mine := w.attempts[step.attempt];
       && mine.row in w.rows && Pending(w.rows[mine.row])
       && w.rows[mine.row].attempts < step.maxAttempts
       && exists other ::
            && Unexpired(w, other) && other != step.attempt
            && w.attempts[other].row == mine.row && w.attempts[other].worker == mine.worker
  }

  lemma ClaimKeepsExclusive(w: World, step: Step)
    requires Inv(w) && Exclusive(w) && Enabled(w, step) && step.ClaimRow?
    ensures Exclusive(Apply(w, step))
  {
    var t := Apply(w, step);
    forall a | Unexpired(t, a) && a != step.attempt ensures Unexpired(w, a) && w.attempts[a].row != step.row {
      assert Unexpired(w, a);
      assert HoldsRow(w.rows, w.attempts[a]);
    }
  }

  lemma InsertKeepsExclusive(w: World, step: Step)
    requires Inv(w) && Exclusive(w) && Enabled(w, step) && (step.InsertEvent? || step.InsertLeased?)
    ensures Exclusive(Apply(w, step))
  {
    var t := Apply(w, step);
    forall a | Unexpired(t, a) && a in w.attempts ensures Unexpired(w, a) && w.attempts[a].row != step.row {
      assert Unexpired(w, a);
      assert HoldsRow(w.rows, w.attempts[a]);
    }
  }

  lemma StageKeepsExclusive(w: World, step: Step)
    requires Inv(w) && Exclusive(w) && Enabled(w, step)
    requires step.Tick? || step.PublishSucceeds? || step.PublishFails? || step.Crash?
    ensures Exclusive(Apply(w, step))
  {
    var t := Apply(w, step);
    forall a | Unexpired(t, a)
      ensures Unexpired(w, a) && HoldsRow(t.rows, t.attempts[a]) && t.attempts[a].row == w.attempts[a].row
    {
      assert Unexpired(w, a);
      assert HoldsRow(w.rows, w.attempts[a]);
    }
  }

  lemma AcknowledgeKeepsExclusive(w: World, step: Step)
    requires Inv(w) && Exclusive(w) && Enabled(w, step) && step.Acknowledge?
    ensures Exclusive(Apply(w, step))
  {
    var t := Apply(w, step);
    forall a | Unexpired(t, a)
      ensures Unexpired(w, a) && HoldsRow(t.rows, t.attempts[a]) && t.attempts[a].row == w.attempts[a].row
    {
      assert Unexpired(w, a);
      assert HoldsRow(w.rows, w.attempts[a]);
    }
  }

  lemma ReportKeepsExclusive(w: World, step: Step)
    requires Inv(w) && Exclusive(w) && Enabled(w, step) && step.ReportFailure? && !Steals(w, step)
    ensures Exclusive(Apply(w, step))
  {
    var t := Apply(w, step);
    forall a | Unexpired(t, a)
      ensures Unexpired(w, a) && HoldsRow(t.rows, t.attempts[a]) && t.attempts[a].row == w.attempts[a].row
    {
      assert Unexpired(w, a) && a != step.attempt;
      assert HoldsRow(w.rows, w.attempts[a]);
    }
  }

  lemma StealBreaksExclusive(w: World, step: Step)
    requires Inv(w) && Exclusive(w) && Enabled(w, step) && Steals(w, step)
    ensures !Exclusive(Apply(w, step))
  {
    var t := Apply(w, step);
    var mine := w.attempts[step.attempt];
    var other :| Unexpired(w, other) && other != step.attempt
                 && w.attempts[other].row == mine.row && w.attempts[other].worker == mine.worker;
    assert HoldsRow(w.rows, w.attempts[other]);
    assert Unexpired(t, other);
    assert !HoldsRow(t.rows, t.attempts[other]);
  }

  /** A step keeps leases exclusive if and only if it is not such a report. */
  lemma ExclusiveExactly(w: World, step: Step)
    requires Inv(w) && Exclusive(w) && Enabled(w, step)
    ensures Exclusive(Apply(w, step)) <==> !Steals(w, step)
  {
    match step {
      case ClaimRow(_, _, _, _) => ClaimKeepsExclusive(w, step);
      case InsertEvent(_, _) => InsertKeepsExclusive(w, step);
      case InsertLeased(_, _, _, _, _) => InsertKeepsExclusive(w, step);
      case Acknowledge(_, _) => AcknowledgeKeepsExclusive(w, step);
      case ReportFailure(_, _, _) =>
        if Steals(w, step) { StealBreaksExclusive(w, step); } else { ReportKeepsExclusive(w, step); }
      case _ => StageKeepsExclusive(w, step);
    }
  }

  // ---------------------------------------------------------------------------------------------
  // Theorems over every run
  // ---------------------------------------------------------------------------------------------

  function Initial(): World {
    World(0, map[], map[], map[])
  }

  /** The bookkeeping `Apply` relies on. */
  ghost predicate Linked(w: World) {
    w.past.Keys == w.rows.Keys && forall a <- w.attempts :: w.attempts[a].row in w.rows
  }

  ghost predicate Next(w: World, v: World) {
    Linked(w) && exists step :: Enabled(w, step) && v == Apply(w, step)
  }

  /** A step in which no worker reports on a row that a newer attempt of its own holds. */
  ghost predicate FairNext(w: World, v: World) {
    Linked(w) && exists step :: Enabled(w, step) && !Steals(w, step) && v == Apply(w, step)
  }

  lemma RunsKeepInv(states: seq<World>)
    requires IsRun(Next, states) && states[0] == Initial()
    ensures forall i | 0 <= i < |states| :: Inv(states[i])
  {
    forall w, v | Inv(w) && Next(w, v) ensures Inv(v) {
      var step :| Enabled(w, step) && v == Apply(w, step);
      StepKeepsInv(w, step);
    }
    Invariance(Inv, Next, states);
  }

  /** In every such run at most one attempt on a row has an unexpired lease, and as long as the row is
      unfinished the row names that attempt's worker. */
  lemma LeaseIsExclusive(states: seq<World>, i: nat)
    requires IsRun(FairNext, states) && states[0] == Initial() && i < |states|
    ensures Inv(states[i]) && Exclusive(states[i])
  {
    var inv := (w: World) => Inv(w) && Exclusive(w);
    forall w, v | inv(w) && FairNext(w, v) ensures inv(v) {
      var step :| Enabled(w, step) && !Steals(w, step) && v == Apply(w, step);
      StepKeepsInv(w, step);
      ExclusiveExactly(w, step);
    }
    assert inv(states[0]);
    Invariance(inv, FairNext, states);
    assert inv(states[i]);
  }

  /** A second attempt starts only after the release or strictly after the expiry of the first. */
  lemma ReclaimNeedsExpiry(w: World, step: Step)
    requires Inv(w) && Exclusive(w) && Enabled(w, step) && step.ClaimRow?
    ensures w.rows[step.row].lease.None? || w.rows[step.row].lease.value.until < w.now
    ensures forall a <- w.attempts | w.attempts[a].row == step.row :: w.attempts[a].until < w.now
  {
    forall a <- w.attempts | w.attempts[a].row == step.row ensures w.attempts[a].until < w.now {
      if Unexpired(w, a) { assert HoldsRow(w.rows, w.attempts[a]); }
    }
  }

  /** A run that ends with two workers inside unexpired leases on one row: worker 7 claims, outlives its
      lease, claims again, and the report of its first attempt frees the row, which worker 8 claims after
      the retry delay while the second lease of worker 7 runs on. */
  function StaleReport(k: nat): (Step, World)
    requires k <= 8
  {
    var row := Row(0, 0, 0, 0, None, None, None);
    var claimed := row.(attempts := 1, lease := Some(Lease(7, 1_000)));
    var first, second := Attempt(7, 0, 1_000, Refused, false, 1), Attempt(7, 0, 2_001, Publishing, false, 2);
    var freed := row.(availableAt := 1_101, attempts := 2);
    match k
    case 0 => (InsertEvent(0, 0), Initial())
    case 1 => (ClaimRow(0, 7, 1_000, 1), World(0, map[0 := row], map[], map[0 := Past(0, 0, false, 0)]))
    case 2 => (PublishFails(1), World(0, map[0 := claimed], map[1 := first.(stage := Publishing)], map[0 := Past(0, 1, false, 0)]))
    case 3 => (Tick(1_001), World(0, map[0 := claimed], map[1 := first], map[0 := Past(0, 1, false, 0)]))
    case 4 => (ClaimRow(0, 7, 1_000, 2), World(1_001, map[0 := claimed], map[1 := first], map[0 := Past(0, 1, false, 0)]))
    case 5 => (ReportFailure(1, 100, 5), World(1_001, map[0 := row.(attempts := 2, lease := Some(Lease(7, 2_001)))],
                                               map[1 := first, 2 := second], map[0 := Past(0, 2, false, 0)]))
    case 6 => (Tick(1_101), World(1_001, map[0 := freed], map[2 := second], map[0 := Past(0, 2, false, 5)]))
    case 7 => (ClaimRow(0, 8, 1_000, 3), World(1_101, map[0 := freed], map[2 := second], map[0 := Past(0, 2, false, 5)]))
    case _ => (Tick(1_101), World(1_101, map[0 := freed.(attempts := 3, lease := Some(Lease(8, 2_101)))],
                                  map[2 := second, 3 := Attempt(8, 0, 2_101, Publishing, false, 3)],
                                  map[0 := Past(0, 3, false, 5)]))
  }

  lemma TakesStep(w: World, step: Step, v: World)
    requires Linked(w) && Enabled(w, step)
    requires var t := Apply(w, step);
             v.now == t.now && v.rows == t.rows && v.attempts == t.attempts && v.past == t.past
    ensures Next(w, v)
  {
    assert v == Apply(w, step);
  }

  /** Until worker 7 claims again. */
  lemma StaleReportBegins(k: nat)
    requires k < 4
    ensures Next(StaleReport(k).1, StaleReport(k + 1).1)
  {
    var (step, w) := StaleReport(k);
    TakesStep(w, step, StaleReport(k + 1).1);
  }

  /** Worker 7 claims again, while its first attempt is still to report. */
  lemma StaleReportReclaims()
    ensures Next(StaleReport(4).1, StaleReport(5).1)
  {
    var (step, w) := StaleReport(4);
    TakesStep(w, step, StaleReport(5).1);
  }

  /** The report, which frees the row. */
  lemma StaleReportFrees()
    ensures Next(StaleReport(5).1, StaleReport(6).1)
  {
    var (step, w) := StaleReport(5);
    TakesStep(w, step, StaleReport(6).1);
  }

  /** The retry delay, and the claim of worker 8. */
  lemma StaleReportEnds(k: nat)
    requires 6 <= k < 8
    ensures Next(StaleReport(k).1, StaleReport(k + 1).1)
  {
    var (step, w) := StaleReport(k);
    TakesStep(w, step, StaleReport(k + 1).1);
  }

  lemma StaleReportStep(k: nat)
    requires k < 8
    ensures Next(StaleReport(k).1, StaleReport(k + 1).1)
  {
    if k < 4 { StaleReportBegins(k); }
    else if k == 4 { StaleReportReclaims(); }
    else if k == 5 { StaleReportFrees(); }
    else { StaleReportEnds(k); }
  }

  /** Exclusivity is therefore false of unrestricted runs. */
  lemma StaleReportBreaksExclusivity()
    ensures exists states: seq<World> ::
              && IsRun(Next, states) && states[0] == Initial()
              && !Exclusive(states[|states| - 1])
  {
    var states := seq(9, k requires 0 <= k < 9 => StaleReport(k).1);
    forall i, j | 0 <= i && j == i + 1 && j < |states| ensures Next(states[i], states[j]) {
      StaleReportStep(i);
    }
    var last := states[8];
    assert Unexpired(last, 2) && Unexpired(last, 3);
  }

  /** A reported failure backs off: the row can be claimed exactly from the end of its delay on, by anyone,
      or never again if it died. */
  lemma FailureBacksOff(row: Row, worker: nat, retryDelay: nat, maxAttempts: nat, now: nat, at: nat)
    requires Owns(row, worker)
    ensures var failed := Fail(row, worker, retryDelay, maxAttempts, now);
            && failed.Some? && failed.value.attempts == row.attempts
            && (Claimable(failed.value, {row.destination}, at) <==>
                  row.attempts < maxAttempts && at >= now + retryDelay)
  {
  }

  // ---------------------------------------------------------------------------------------------
  // Acknowledgements
  // ---------------------------------------------------------------------------------------------

  /** The step from state `j` is the acknowledgement of attempt `a` that published row `id`: the handler
      had published, and the row was unfinished and leased to the attempt's worker at that moment. */
  ghost predicate AckedAt(states: seq<World>, j: nat, id: nat, a: nat, fate: Fate) {
    && j + 1 < |states|
    && Linked(states[j]) && Enabled(states[j], Acknowledge(a, fate))
    && states[j + 1] == Apply(states[j], Acknowledge(a, fate))
    && AckWins(states[j], id, a)
    && states[j + 1].rows[id].publishedAt == Some(states[j].now)
  }

  ghost predicate AckWins(w: World, id: nat, a: nat) {
    && a in w.attempts && w.attempts[a].row == id && w.attempts[a].stage.Published?
    && id in w.rows && Pending(w.rows[id])
    && w.rows[id].lease.Some?
    && w.rows[id].lease.value.worker == w.attempts[a].worker
    && w.rows[id].lease.value.until >= w.now
  }

  /** Only a winning acknowledgement publishes a row, and it stamps the current time. */
  lemma StepPublishes(w: World, step: Step, id: nat)
    requires Linked(w) && Enabled(w, step)
    requires id in Apply(w, step).rows && Apply(w, step).rows[id].publishedAt.Some?
    ensures || (id in w.rows && w.rows[id].publishedAt == Apply(w, step).rows[id].publishedAt)
            || (&& step.Acknowledge? && AckWins(w, id, step.attempt)
                && Apply(w, step).rows[id].publishedAt == Some(w.now))
  {
  }

  /** Acknowledgements are exclusive: in every run a row is published by exactly one step, the
      acknowledgement of an attempt whose publication succeeded, at a moment when the row's unexpired
      lease named that attempt's worker; `published_at` is that moment. */
  lemma {:induction false} AcksAreExclusive(states: seq<World>, i: nat, id: nat)
    requires IsRun(Next, states) && states[0] == Initial() && i < |states|
    requires id in states[i].rows && states[i].rows[id].publishedAt.Some?
    ensures exists j: nat, a, fate ::
              j < i && AckedAt(states, j, id, a, fate) && states[i].rows[id].publishedAt == Some(states[j].now)
    decreases i
  {
    var w := states[i - 1];
    assert Next(w, states[i - 1 + 1]);
    var step :| Enabled(w, step) && states[i] == Apply(w, step);
    StepPublishes(w, step, id);
    if id in w.rows && w.rows[id].publishedAt == states[i].rows[id].publishedAt {
      AcksAreExclusive(states, i - 1, id);
    } else {
      assert AckedAt(states, i - 1, id, step.attempt, step.fate);
    }
  }

  /** No row is acknowledged twice. */
  lemma AckIsUnique(states: seq<World>, id: nat, j: nat, a: nat, fate: Fate, k: nat, b: nat, other: Fate)
    requires IsRun(Next, states) && AckedAt(states, j, id, a, fate) && AckedAt(states, k, id, b, other)
    ensures j == k
  {
    if j < k { FinishedStaysFinished(states, id, j + 1, k); }
    if k < j { FinishedStaysFinished(states, id, k + 1, j); }
  }

  lemma FinishedStaysFinished(states: seq<World>, id: nat, i: nat, j: nat)
    requires IsRun(Next, states) && i <= j < |states|
    requires id in states[i].rows && !Pending(states[i].rows[id])
    ensures id in states[j].rows && !Pending(states[j].rows[id])
  {
    FinishedIsFinal(states, i, j);
  }

  // ---------------------------------------------------------------------------------------------
  // No lost delivery
  // ---------------------------------------------------------------------------------------------

  /** No lost delivery: whatever crashed, a row that is neither published nor dead can be claimed at
      every moment past its availability and its lease, and the clock passes both within the longest
      retry after any state. */
  lemma NothingIsLost(states: seq<World>, i: nat, id: nat, at: nat)
    requires IsRun(Next, states) && states[0] == Initial() && i < |states|
    requires id in states[i].rows && Pending(states[i].rows[id])
    ensures var row := states[i].rows[id];
            Claimable(row, {row.destination}, at) <==>
              at >= row.availableAt && (row.lease.Some? ==> at > row.lease.value.until)
    ensures at > states[i].now + 3_600_000 ==> Claimable(states[i].rows[id], {states[i].rows[id].destination}, at)
  {
    RunsKeepInv(states);
    assert Inv(states[i]);
    assert RowSound(states[i].now, states[i].rows[id], states[i].past[id]);
  }

  /** The rest of a delivery by a fresh attempt, from a state in which the row can be claimed. */
  lemma DeliverNow(states: seq<World>, id: nat, attempt: nat)
    requires IsRun(Next, states) && Inv(states[|states| - 1])
    requires var w := states[|states| - 1];
             id in w.rows && attempt !in w.attempts && Claimable(w.rows[id], {w.rows[id].destination}, w.now)
    ensures exists more: seq<World> :: Delivers(states, more, id)
  {
    var w := states[|states| - 1];
    var claimed := Apply(w, ClaimRow(id, 0, 1_000, attempt));
    ClaimTakes(w, id, attempt);
    ExtendRun(Next, states, claimed);
    FinishNow(states + [claimed], id, attempt);
    var more: seq<World> :| Delivers(states + [claimed], more, id);
    assert states <= states + [claimed] <= more;
    assert Delivers(states, more, id);
  }

  lemma ClaimTakes(w: World, id: nat, attempt: nat)
    requires Inv(w) && id in w.rows && attempt !in w.attempts
    requires Claimable(w.rows[id], {w.rows[id].destination}, w.now)
    ensures var t := Apply(w, ClaimRow(id, 0, 1_000, attempt));
            Next(w, t) && Inv(t) && ReadyToPublish(t, id, attempt)
  {
    StepKeepsInv(w, ClaimRow(id, 0, 1_000, attempt));
    assert Linked(w) && Enabled(w, ClaimRow(id, 0, 1_000, attempt));
  }

  ghost predicate ReadyToPublish(w: World, id: nat, attempt: nat) {
    && id in w.rows && Pending(w.rows[id]) && attempt in w.attempts
    && w.attempts[attempt] == Attempt(0, id, w.now + 1_000, Publishing, false, w.rows[id].attempts)
    && w.rows[id].lease == Some(Lease(0, w.now + 1_000))
  }

  lemma FinishNow(states: seq<World>, id: nat, attempt: nat)
    requires IsRun(Next, states) && Inv(states[|states| - 1]) && ReadyToPublish(states[|states| - 1], id, attempt)
    ensures exists more: seq<World> :: Delivers(states, more, id)
  {
    var w := states[|states| - 1];
    var published := Apply(w, PublishSucceeds(attempt));
    StepKeepsInv(w, PublishSucceeds(attempt));
    assert Linked(w) && Next(w, published);
    var finished := Apply(published, Acknowledge(attempt, Heard));
    assert Linked(published) && Enabled(published, Acknowledge(attempt, Heard));
    assert Next(published, finished);
    ExtendRun(Next, states, published);
    ExtendRun(Next, states + [published], finished);
    assert Delivers(states, states + [published] + [finished], id);
  }

  /** `more` continues the run `states` until row `id` is published. */
  ghost predicate Delivers(states: seq<World>, more: seq<World>, id: nat) {
    && IsRun(Next, more) && states <= more
    && id in more[|more| - 1].rows && more[|more| - 1].rows[id].publishedAt.Some?
  }

  /** Every reachable state can still deliver: whatever crashed, a run that left a row unfinished has a
      continuation that publishes it. */
  lemma DeliveryStaysPossible(states: seq<World>, id: nat)
    requires IsRun(Next, states) && states[0] == Initial()
    requires var w := states[|states| - 1]; id in w.rows && Pending(w.rows[id])
    ensures exists more: seq<World> :: Delivers(states, more, id)
  {
    RunsKeepInv(states);
    var w := states[|states| - 1];
    assert Inv(w);
    var tick := Tick(w.now + MAX_RETRY + 1);
    var later := Apply(w, tick);
    assert Linked(w) && Next(w, later);
    StepKeepsInv(w, tick);
    ExtendRun(Next, states, later);
    NothingIsLost(states, |states| - 1, id, later.now);
    BoundExists(later.attempts.Keys);
    var attempt: nat :| Above(attempt, later.attempts.Keys);
    var run := states + [later];
    assert run[|run| - 1] == later && attempt !in later.attempts;
    DeliverNow(run, id, attempt);
    var more: seq<World> :| Delivers(run, more, id);
    assert states <= run <= more;
    assert Delivers(states, more, id);
  }

  /** A published row was published by a handler, a dead row had used up its budget, the two exclude
      each other, and attempts equal the initial value plus the number of claims. */
  lemma OutcomesAreEarned(states: seq<World>, i: nat, id: nat)
    requires IsRun(Next, states) && states[0] == Initial() && i < |states|
    requires id in states[i].rows
    ensures id in states[i].past
    ensures var row, past := states[i].rows[id], states[i].past[id];
            && (row.publishedAt.Some? ==> past.delivered && row.deadAt.None?)
            && (row.deadAt.Some? ==> row.attempts >= past.deadLimit >= 1)
            && row.attempts == past.initialAttempts + past.claims
  {
    RunsKeepInv(states);
    assert Inv(states[i]);
    assert RowSound(states[i].now, states[i].rows[id], states[i].past[id]);
  }

  /** Rows stay, finished rows never change, and attempts never go down. */
  ghost predicate Onward(w: World, v: World) {
    && w.now <= v.now
    && forall id <- w.rows ::
         && id in v.rows
         && (!Pending(w.rows[id]) ==> v.rows[id] == w.rows[id])
         && w.rows[id].attempts <= v.rows[id].attempts
  }

  lemma OnwardIsTransitive(w: World, v: World, u: World)
    requires Onward(w, v) && Onward(v, u)
    ensures Onward(w, u)
  {
  }

  lemma StepIsOnward(w: World, step: Step)
    requires Linked(w) && Enabled(w, step)
    ensures Onward(w, Apply(w, step))
  {
  }

  /** Published and dead are terminal over every run. */
  lemma FinishedIsFinal(states: seq<World>, i: nat, j: nat)
    requires IsRun(Next, states) && i <= j < |states|
    ensures Onward(states[i], states[j])
  {
    forall w, v | Next(w, v) ensures Onward(w, v) {
      var step :| Enabled(w, step) && v == Apply(w, step);
      StepIsOnward(w, step);
    }
    forall w, v, u | Onward(w, v) && Onward(v, u) ensures Onward(w, u) { OnwardIsTransitive(w, v, u); }
    Progress(Onward, Next, states, i, j);
  }
}
