/** Bounded selections in order, as `ORDER BY ... LIMIT` and score ranges make them, and lists without
    repetitions. */
module Ordering {

  /** The candidates of a selection with their two sorting columns; the identifier breaks ties. */
  type Ranks = map<nat, (nat, nat)>

  predicate Precedes(ranks: Ranks, a: nat, b: nat) {
    && a in ranks && b in ranks
    && (|| ranks[a].0 < ranks[b].0
        || (ranks[a].0 == ranks[b].0 && ranks[a].1 < ranks[b].1)
        || (ranks[a] == ranks[b] && a < b))
  }

  /** `order` lists the first candidates: ascending, at most `limit` of them, and what it leaves out comes
      after a full list. */
  ghost predicate IsFirst(ranks: Ranks, limit: nat, order: seq<nat>) {
    && |order| <= limit
    && (forall id <- order :: id in ranks)
    && (forall i, j | 0 <= i < j < |order| :: Precedes(ranks, order[i], order[j]))
    && (forall id <- ranks | id !in order ::
          |order| == limit && forall i | 0 <= i < |order| :: Precedes(ranks, order[i], id))
  }

  method Least(ranks: Ranks, ids: set<nat>) returns (first: nat)
    requires ids != {} && ids <= ranks.Keys
    ensures first in ids && forall id <- ids - {first} :: Precedes(ranks, first, id)
  {
    first :| first in ids;
    var left := ids - {first};
    while left != {}
      invariant first in ids && left <= ids && first !in left
      invariant forall id <- ids :: id == first || id in left || Precedes(ranks, first, id)
      decreases |left|
    {
      var id :| id in left;
      left := left - {id};
      if Precedes(ranks, id, first) { first := id; }
    }
  }

  method First(ranks: Ranks, limit: nat) returns (order: seq<nat>)
    ensures IsFirst(ranks, limit, order)
  {
    order := [];
    var left := ranks.Keys;
    while left != {} && |order| < limit
      invariant |order| <= limit && left <= ranks.Keys
      invariant forall id <- order :: id in ranks && id !in left
      invariant forall id <- ranks :: id in left || id in order
      invariant forall i, j | 0 <= i < j < |order| :: Precedes(ranks, order[i], order[j])
      invariant forall i, id | 0 <= i < |order| && id in left :: Precedes(ranks, order[i], id)
      decreases |left|
    {
      var first := Least(ranks, left);
      order := order + [first];
      left := left - {first};
    }
  }

  ghost predicate Distinct(ids: seq<nat>) {
    forall i, j | 0 <= i < j < |ids| :: ids[i] != ids[j]
  }

  function Elements(ids: seq<nat>): set<nat> {
    set id | id in ids
  }

  lemma {:induction false} DistinctCount(ids: seq<nat>)
    requires Distinct(ids)
    ensures |Elements(ids)| == |ids|
  {
    if ids != [] {
      var init, last := ids[..|ids| - 1], ids[|ids| - 1];
      DistinctCount(init);
      assert Elements(ids) == Elements(init) + {last};
      assert last !in Elements(init);
    }
  }

  /** A selection names nothing twice, is everything if that fits, and is full otherwise. */
  lemma FirstCounts(ranks: Ranks, limit: nat, order: seq<nat>)
    requires IsFirst(ranks, limit, order)
    ensures Distinct(order) && |Elements(order)| == |order| && Elements(order) <= ranks.Keys
    ensures |order| == if |ranks.Keys| <= limit then |ranks.Keys| else limit
    ensures |ranks.Keys| <= limit ==> Elements(order) == ranks.Keys
  {
    assert forall i, j | 0 <= i < j < |order| :: Precedes(ranks, order[i], order[j]);
    DistinctCount(order);
    SubsetSize(Elements(order), ranks.Keys);
    if |order| < limit {
      assert forall id <- ranks :: id in order;
      assert Elements(order) == ranks.Keys;
    } else if |ranks.Keys| <= limit {
      SameSize(Elements(order), ranks.Keys);
    }
  }

  lemma {:induction false} SubsetSize<T>(small: set<T>, big: set<T>)
    requires small <= big
    ensures |small| <= |big|
    decreases small
  {
    if small != {} {
      var x :| x in small;
      SubsetSize(small - {x}, big - {x});
    }
  }

  lemma SameSize<T>(small: set<T>, big: set<T>)
    requires small <= big && |big| <= |small|
    ensures small == big
  {
    if big - small != {} {
      var x :| x in big - small;
      SubsetSize(small, big - {x});
    }
  }

  ghost predicate Above(bound: nat, ids: set<nat>) {
    forall id <- ids :: id < bound
  }

  lemma {:induction false} BoundExists(ids: set<nat>)
    ensures exists bound: nat :: Above(bound, ids)
    decreases ids
  {
    if ids == {} {
      assert Above(0, ids);
    } else {
      var x :| x in ids;
      var rest := ids - {x};
      BoundExists(rest);
      var bound: nat :| Above(bound, rest);
      var larger := if x < bound then bound else x + 1;
      forall id <- ids ensures id < larger { assert id == x || id in rest; }
      assert Above(larger, ids);
    }
  }
}
