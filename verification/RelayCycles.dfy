/** One cycle of the relay worker as its asynchronous pieces (src/modules/outbox/outbox-relay.ts:21-82):
    the claim, the opening of a window, and the end of one delivery. Between two pieces other workers
    may do anything to the rows. */
module RelayCycles {
  import opened Ordering
  import opened Outbox

  /** The attempt counts of some rows. */
  function CountsOf(rows: map<nat, Row>, ids: set<nat>): (counts: map<nat, nat>)
    requires ids <= rows.Keys
    ensures counts.Keys == ids
  {
    map id | id in ids :: rows[id].attempts
  }

  lemma ClaimNothing(rows: map<nat, Row>, worker: nat, until: nat)
    ensures ClaimAll(rows, [], worker, until) == rows
  {
  }

  /** `waiting` are the deliveries of opened windows whose promise is still pending, `rejected` says that
      one was rejected, which ends `runOnce` although the others of its window go on. */
  class RelayCycle {
    const relay: OutboxRelay
    const worker: nat
    var claimed: seq<nat>
    var numbers: map<nat, nat>
    var reached: nat
    var waiting: set<nat>
    var rejected: bool
    ghost var settled: set<nat>

    /** The windows opened so far are the first `reached` deliveries; each of them is pending or was settled
        once. */
    ghost predicate Valid()
      reads this
    {
      && ValidConfig(relay.config)
      && Distinct(claimed) && numbers.Keys == Elements(claimed)
      && reached <= |claimed|
      && waiting !! settled && waiting + settled == Elements(claimed[..reached])
    }

    constructor (relay: OutboxRelay, worker: nat)
      requires ValidConfig(relay.config)
      ensures this.relay == relay && this.worker == worker && Valid()
      ensures claimed == [] && reached == 0 && waiting == {} && settled == {} && !rejected
    {
      this.relay, this.worker := relay, worker;
      claimed, numbers, reached, waiting, rejected, settled := [], map[], 0, {}, false, {};
    }

    /** The claim; its deliveries carry the attempt counts it returned. Without a destination there is none. */
    method ClaimDeliveries(destinations: set<nat>, busy: set<nat>, now: nat, later: nat)
      requires Valid() && claimed == [] && now <= later && |destinations| <= 3
      modifies this`claimed, this`numbers, relay.repository
      ensures Valid()
      ensures destinations == {} ==> claimed == []
      ensures destinations != {} ==>
                IsFirst(Candidates(old(relay.repository.rows), busy, destinations, now), relay.config.batchSize, claimed)
      ensures relay.repository.rows ==
                ClaimAll(old(relay.repository.rows), claimed, worker, later + relay.config.leaseMs)
      ensures Elements(claimed) <= relay.repository.rows.Keys && numbers == CountsOf(relay.repository.rows, Elements(claimed))
    {
      if destinations == {} {
        ClaimNothing(relay.repository.rows, worker, later + relay.config.leaseMs);
        return;
      }
      var batch := ClaimSome(destinations, busy, now, later);
      claimed, numbers := batch, CountsOf(relay.repository.rows, Elements(batch));
      assert claimed[..reached] == [];
    }

    method ClaimSome(destinations: set<nat>, busy: set<nat>, now: nat, later: nat) returns (batch: seq<nat>)
      requires ValidConfig(relay.config) && destinations != {} && now <= later && |destinations| <= 3
      modifies relay.repository
      ensures IsFirst(Candidates(old(relay.repository.rows), busy, destinations, now), relay.config.batchSize, batch)
      ensures relay.repository.rows == ClaimAll(old(relay.repository.rows), batch, worker, later + relay.config.leaseMs)
      ensures Distinct(batch) && Elements(batch) <= relay.repository.rows.Keys
    {
      assert |destinations| >= 1;
      ghost var original := relay.repository.rows;
      var accepted;
      accepted, batch := relay.repository.ClaimBatch(worker, relay.config.batchSize, relay.config.leaseMs,
                                                     destinations, busy, now, later);
      FirstCounts(Candidates(original, busy, destinations, now), relay.config.batchSize, batch);
    }

    /** The next window opens only when the one before is through and nothing was rejected. */
    method OpenWindow() returns (isOpen: bool)
      requires Valid() && waiting == {}
      modifies this`reached, this`waiting
      ensures Valid()
      ensures isOpen <==> !rejected && old(reached) < |claimed|
      ensures isOpen ==>
                && old(reached) < reached <= old(reached) + relay.config.concurrency
                && (reached == |claimed| || reached == old(reached) + relay.config.concurrency)
                && waiting == Elements(claimed[old(reached)..reached])
      ensures !isOpen ==> reached == old(reached) && waiting == {}
    {
      if rejected || reached == |claimed| { return false; }
      var end := if reached + relay.config.concurrency < |claimed| then reached + relay.config.concurrency else |claimed|;
      WindowSplits(claimed, reached, end);
      waiting := Elements(claimed[reached..end]);
      reached := end;
      return true;
    }

    /** One pending delivery of an opened window ends, whatever its row has become since the claim: its
        report is written if the worker still owns the row, and the delivery is settled once. */
    method EndDelivery(id: nat, p: Publication)
      requires Valid() && id in waiting && 0.0 <= p.random < 1.0
      modifies this`waiting, this`rejected, this`settled, relay.repository
      ensures Valid() && settled == old(settled) + {id} && waiting == old(waiting) - {id}
      ensures id in numbers
      ensures relay.repository.rows == ReportedRows(old(relay.repository.rows), id, worker, relay.config, numbers[id], p)
      ensures rejected <==> old(rejected) || !ReportResolves(old(relay.repository.rows), id, worker, relay.config, numbers[id], p)
    {
      assert id in Elements(claimed[..reached]);
      var resolved := relay.PublishAny(id, worker, numbers[id], p);
      if !resolved { rejected := true; }
      waiting := waiting - {id};
      settled := settled + {id};
    }
  }
}
