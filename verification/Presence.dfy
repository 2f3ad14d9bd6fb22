/** Presence of realtime connections in one meeting: the four Redis scripts, each atomic at one Redis
    time, with key expiry (src/modules/presence/presence-scripts.ts), and the aggregated snapshot
    (src/modules/presence/presence.service.ts). */
module Presence {
  import opened ChatTypes
  import opened Runs
  import opened Ordering

  datatype Detail = Detail(participant: nat, role: nat)

  /** The three keys: the sorted set (`scores` are freshness deadlines), the hash and the counter, each
      with the time its key expires. A key without members does not exist and has no expiry. */
  datatype Keys = Keys(
    scores: map<nat, nat>, scoresExpire: Option<nat>,
    details: map<nat, Detail>, detailsExpire: Option<nat>,
    revision: Option<nat>, revisionExpires: Option<nat>)

  function Empty(): Keys {
    Keys(map[], None, map[], None, None, None)
  }

  predicate Due(deadline: Option<nat>, now: nat) {
    deadline.Some? && deadline.value < now
  }

  /** Redis drops every key whose time has come. */
  function Expire(k: Keys, now: nat): Keys {
    Keys(if Due(k.scoresExpire, now) then map[] else k.scores,
         if Due(k.scoresExpire, now) then None else k.scoresExpire,
         if Due(k.detailsExpire, now) then map[] else k.details,
         if Due(k.detailsExpire, now) then None else k.detailsExpire,
         if Due(k.revisionExpires, now) then None else k.revision,
         if Due(k.revisionExpires, now) then None else k.revisionExpires)
  }

  function RevisionOf(k: Keys): nat {
    if k.revision.Some? then k.revision.value else 0
  }

  /** `INCR`, which keeps the expiry of an existing key and gives none to a new one. */
  function Increment(k: Keys): Keys {
    k.(revision := Some(RevisionOf(k) + 1))
  }

  /** `ZREM` and `HDEL` of some connections. */
  function Remove(k: Keys, ids: set<nat>): Keys {
    var scores, details := k.scores - ids, k.details - ids;
    k.(scores := scores, scoresExpire := if scores == map[] then None else k.scoresExpire,
       details := details, detailsExpire := if details == map[] then None else k.detailsExpire)
  }

  function Retain(k: Keys, until: nat): Keys {
    k.(scoresExpire := if k.scores == map[] then None else Some(until),
       detailsExpire := if k.details == map[] then None else Some(until),
       revisionExpires := if k.revision.None? then None else Some(until))
  }

  predicate Stale(scores: map<nat, nat>, id: nat, now: nat) {
    id in scores && scores[id] <= now
  }

  function Fresh(scores: map<nat, nat>, now: nat): set<nat> {
    set id | id in scores && scores[id] > now
  }

  /** A connection is present until its score, and stale from then on. */
  lemma StaleOrFresh(scores: map<nat, nat>, id: nat, now: nat)
    requires id in scores
    ensures Stale(scores, id, now) <==> id !in Fresh(scores, now)
    ensures Stale(scores, id, now) <==> now >= scores[id]
  {
  }

  /** `ZRANGEBYSCORE -inf now LIMIT 0 limit`: the stalest entries, all of them if they fit. */
  ghost predicate IsStaleBatch(scores: map<nat, nat>, now: nat, limit: nat, stale: set<nat>) {
    && (forall id <- stale :: Stale(scores, id, now))
    && |stale| <= limit
    && forall id | Stale(scores, id, now) && id !in stale ::
         |stale| == limit && forall other <- stale :: scores[other] <= scores[id]
  }

  function OpenScript(k: Keys, now: nat, stale: set<nat>, id: nat, detail: Detail, ttl: nat): Keys {
    var purged := Remove(k, stale);
    var added := purged.(scores := purged.scores[id := now + ttl], details := purged.details[id := detail]);
    Retain(Increment(added), now + 2 * ttl)
  }

  datatype Beat = Beat(keys: Keys, changed: bool, present: bool)

  function HeartbeatScript(k: Keys, now: nat, stale: set<nat>, id: nat, ttl: nat): Beat {
    var purged := if stale == {} then k else Increment(Remove(k, stale));
    if id !in purged.details then Beat(purged, stale != {}, false)
    else
      var touched := purged.(scores := purged.scores[id := now + ttl]);
      var revised := if touched.revision.None? then Increment(touched) else touched;
      Beat(Retain(revised, now + 2 * ttl), stale != {} || touched.revision.None?, true)
  }

  function CloseScript(k: Keys, now: nat, id: nat, ttl: nat): Keys {
    var removed := Remove(k, {id});
    if id !in k.scores then removed
    else Increment(removed).(revisionExpires := Some(now + 2 * ttl))
  }

  function SnapshotScript(k: Keys, stale: set<nat>): Keys {
    if stale == {} then k else Increment(Remove(k, stale))
  }

  // ---------------------------------------------------------------------------------------------
  // Every run of scripts
  // ---------------------------------------------------------------------------------------------

  datatype World = World(now: nat, keys: Keys)

  datatype Script =
    | Open(stale: set<nat>, id: nat, detail: Detail)
    | Heartbeat(stale: set<nat>, id: nat)
    | Close(id: nat)
    | Snapshot(stale: set<nat>)
    | Nothing

  function RunScript(k: Keys, now: nat, script: Script, ttl: nat): Keys {
    match script
    case Open(stale, id, detail) => OpenScript(k, now, stale, id, detail, ttl)
    case Heartbeat(stale, id) => HeartbeatScript(k, now, stale, id, ttl).keys
    case Close(id) => CloseScript(k, now, id, ttl)
    case Snapshot(stale) => SnapshotScript(k, stale)
    case Nothing => k
  }

  ghost predicate Purges(k: Keys, now: nat, script: Script, limit: nat) {
    script.Open? || script.Heartbeat? || script.Snapshot? ==> IsStaleBatch(k.scores, now, limit, script.stale)
  }

  /** Time moves to `v.now`, due keys vanish, then one script runs. */
  ghost predicate Next(ttl: nat, limit: nat, w: World, v: World) {
    && w.now <= v.now
    && var k := Expire(w.keys, v.now);
       exists script :: Purges(k, v.now, script, limit) && v.keys == RunScript(k, v.now, script, ttl)
  }

  /** The sorted set and the hash hold the same connections and expire together; as long as there is a
      connection the revision exists and outlives both, and no score is closer than one TTL to expiry. */
  ghost predicate Inv(ttl: nat, w: World) {
    var k := w.keys;
    && k.scores.Keys == k.details.Keys
    && k.scoresExpire == k.detailsExpire
    && (k.scores == map[] ==> k.scoresExpire.None?)
    && (k.revision.None? ==> k.revisionExpires.None?)
    && (k.scores != map[] ==>
          && k.scoresExpire.Some? && k.revision.Some?
          && k.scoresExpire.value <= w.now + 2 * ttl
          && (k.revisionExpires.Some? ==> k.scoresExpire.value <= k.revisionExpires.value)
          && forall id <- k.scores :: k.scores[id] <= w.now + ttl && k.scores[id] + ttl <= k.scoresExpire.value)
  }

  lemma ExpireKeeps(ttl: nat, w: World, now: nat)
    requires Inv(ttl, w) && w.now <= now
    ensures Inv(ttl, World(now, Expire(w.keys, now)))
    ensures forall id <- w.keys.scores | w.keys.scores[id] > now ::
              id in Expire(w.keys, now).scores && Expire(w.keys, now).revision == w.keys.revision
  {
  }

  lemma ScriptKeeps(ttl: nat, now: nat, k: Keys, script: Script)
    requires Inv(ttl, World(now, k))
    requires script.Open? || script.Heartbeat? || script.Snapshot? ==> forall id <- script.stale :: id in k.scores
    ensures Inv(ttl, World(now, RunScript(k, now, script, ttl)))
  {
    match script {
      case Open(stale, id, _) =>
        assert id in Remove(k, stale).scores[id := now + ttl];
      case Heartbeat(stale, id) =>
        if stale != {} { assert k.scores != map[]; }
      case Snapshot(stale) =>
        if stale != {} { assert k.scores != map[]; }
      case _ =>
    }
  }

  lemma StepKeepsInv(ttl: nat, limit: nat, w: World, v: World)
    requires Inv(ttl, w) && Next(ttl, limit, w, v)
    ensures Inv(ttl, v)
  {
    ExpireKeeps(ttl, w, v.now);
    var k := Expire(w.keys, v.now);
    var script :| Purges(k, v.now, script, limit) && v.keys == RunScript(k, v.now, script, ttl);
    ScriptKeeps(ttl, v.now, k, script);
  }

  ghost predicate IsPresenceRun(ttl: nat, limit: nat, states: seq<World>) {
    IsRun((w: World, v: World) => Next(ttl, limit, w, v), states) && states[0].keys == Empty()
  }

  /** In every reachable state the two collections agree and the revision outlives them. */
  lemma PresenceAgrees(ttl: nat, limit: nat, states: seq<World>)
    requires IsPresenceRun(ttl, limit, states)
    ensures forall i | 0 <= i < |states| ::
              Inv(ttl, states[i]) && states[i].keys.scores.Keys == states[i].keys.details.Keys
  {
    var inv := (w: World) => Inv(ttl, w);
    var next := (w: World, v: World) => Next(ttl, limit, w, v);
    forall w, v | inv(w) && next(w, v) ensures inv(v) { StepKeepsInv(ttl, limit, w, v); }
    assert inv(states[0]);
    Invariance(inv, next, states);
    forall i | 0 <= i < |states| ensures Inv(ttl, states[i]) { assert inv(states[i]); }
  }

  /** A script that changes the stored connections raises the revision, and no script lowers it. */
  lemma ChangesRaiseRevision(ttl: nat, now: nat, k: Keys, script: Script)
    ensures var after := RunScript(k, now, script, ttl);
            && RevisionOf(after) >= RevisionOf(k)
            && (k.scores.Keys == k.details.Keys && after.scores.Keys != k.scores.Keys ==> RevisionOf(after) > RevisionOf(k))
  {
    match script {
      case Heartbeat(stale, id) =>
        if k.scores.Keys == k.details.Keys && stale == {} && id in k.details {
          assert k.scores[id := now + ttl].Keys == k.scores.Keys;
        }
      case Close(id) =>
        if id !in k.scores && k.scores.Keys == k.details.Keys { assert k.scores - {id} == k.scores; }
      case _ =>
    }
  }

  /** Opening makes the connection present with its detail until one TTL from now and no longer, keeps every
      other connection that was not purged, counts one revision, and keeps all keys for two TTLs. */
  lemma OpenedIsPresent(k: Keys, now: nat, stale: set<nat>, id: nat, detail: Detail, ttl: nat, at: nat)
    ensures var after := OpenScript(k, now, stale, id, detail, ttl);
            && id in after.scores && id in after.details && after.details[id] == detail
            && (id in Fresh(after.scores, at) <==> at < now + ttl)
            && (forall other | other != id ::
                  && (other in after.scores <==> other in k.scores && other !in stale)
                  && (other in after.details <==> other in k.details && other !in stale)
                  && (other in after.scores ==> after.scores[other] == k.scores[other])
                  && (other in after.details ==> after.details[other] == k.details[other]))
            && after.revision == Some(RevisionOf(k) + 1)
            && after.scoresExpire == after.detailsExpire == after.revisionExpires == Some(now + 2 * ttl)
  {
    var after := OpenScript(k, now, stale, id, detail, ttl);
    assert id in after.scores && id in after.details;
  }

  /** A heartbeat of a known connection that was not purged makes it present until one TTL from now and keeps
      its detail and all keys; of any other connection it renews nothing. */
  lemma BeatIsPresent(k: Keys, now: nat, stale: set<nat>, id: nat, ttl: nat, at: nat)
    requires k.scores.Keys == k.details.Keys
    ensures var after := HeartbeatScript(k, now, stale, id, ttl).keys;
            && (id in k.details && id !in stale ==>
                  && id in after.scores && id in after.details && after.details[id] == k.details[id]
                  && (id in Fresh(after.scores, at) <==> at < now + ttl)
                  && after.scoresExpire == after.detailsExpire == after.revisionExpires == Some(now + 2 * ttl))
            && (id !in k.details || id in stale ==> id !in after.scores && id !in after.details)
            && RevisionOf(after) == RevisionOf(k)
                 + (if stale != {} || (id in k.details && k.revision.None?) then 1 else 0)
            && (forall other | other != id ::
                  && (other in after.scores <==> other in k.scores && other !in stale)
                  && (other in after.scores ==> after.scores[other] == k.scores[other]))
  {
    if id in k.details && id !in stale {
      var after := HeartbeatScript(k, now, stale, id, ttl).keys;
      assert id in after.scores && id in after.details;
    }
  }

  /** Closing removes the connection and no other, and counts a revision exactly if it was there. */
  lemma ClosedIsGone(k: Keys, now: nat, id: nat, ttl: nat)
    ensures var after := CloseScript(k, now, id, ttl);
            && after.scores == k.scores - {id} && after.details == k.details - {id}
            && (if id in k.scores then after.revision == Some(RevisionOf(k) + 1) && after.revisionExpires == Some(now + 2 * ttl)
                else after.revision == k.revision && after.revisionExpires == k.revisionExpires)
  {
  }

  /** A snapshot only purges. */
  lemma SnapshotOnlyPurges(k: Keys, stale: set<nat>)
    ensures var after := SnapshotScript(k, stale);
            && after.scores == k.scores - stale && after.details == k.details - stale
            && (if stale == {} then after.revision == k.revision else after.revision == Some(RevisionOf(k) + 1))
  {
    assert k.scores - {} == k.scores && k.details - {} == k.details;
  }

  /** The heartbeat's `changed` flag is exact: it is set precisely when the stored set changed. */
  lemma HeartbeatFlagIsExact(ttl: nat, limit: nat, now: nat, k: Keys, stale: set<nat>, id: nat)
    requires Inv(ttl, World(now, k)) && IsStaleBatch(k.scores, now, limit, stale)
    ensures var beat := HeartbeatScript(k, now, stale, id, ttl);
            && (beat.changed <==> beat.keys.scores.Keys != k.scores.Keys)
            && (beat.present <==> id in k.scores && id !in stale)
  {
    if stale != {} {
      var gone :| gone in stale;
      assert gone in k.scores;
    } else if id in k.details {
      assert k.scores[id := now + ttl].Keys == k.scores.Keys;
    }
  }

  /** While some connection stays fresh across every step, the revision never expires or decreases. */
  lemma RevisionIsMonotone(ttl: nat, limit: nat, states: seq<World>, from: nat, to: nat)
    requires IsPresenceRun(ttl, limit, states) && from <= to < |states|
    requires states[from].keys.scores != map[]
    requires forall i, j | from <= i && j == i + 1 && j <= to ::
               Fresh(states[i].keys.scores, states[j].now) != {}
    ensures states[to].keys.revision.Some? && RevisionOf(states[to].keys) >= RevisionOf(states[from].keys)
  {
    PresenceAgrees(ttl, limit, states);
    var first := RevisionOf(states[from].keys);
    var holds := (w: World) => Inv(ttl, w) && w.keys.revision.Some? && RevisionOf(w.keys) >= first;
    var next := (w: World, v: World) => Next(ttl, limit, w, v) && Fresh(w.keys.scores, v.now) != {};
    var part := states[from..to + 1];
    SubRun((w: World, v: World) => Next(ttl, limit, w, v), states, from, to);
    forall a, b | 0 <= a && b == a + 1 && b < |part| ensures next(part[a], part[b]) {
      assert part[a] == states[from + a] && part[b] == states[from + b];
    }
    forall w, v | holds(w) && next(w, v) ensures holds(v) {
      StepKeepsInv(ttl, limit, w, v);
      ExpireKeeps(ttl, w, v.now);
      var id :| id in Fresh(w.keys.scores, v.now);
      var k := Expire(w.keys, v.now);
      assert id in k.scores && k.revision == w.keys.revision;
      var script :| Purges(k, v.now, script, limit) && v.keys == RunScript(k, v.now, script, ttl);
      ChangesRaiseRevision(ttl, v.now, k, script);
    }
    Invariance(holds, next, part);
    assert holds(part[to - from]) && part[to - from] == states[to];
  }

  // ---------------------------------------------------------------------------------------------
  // The scripts as operations on the keys
  // ---------------------------------------------------------------------------------------------

  /** Some members of a sorted set in its order: by score, then by member. */
  function ByScore(scores: map<nat, nat>, members: set<nat>): (ranks: Ranks)
    requires members <= scores.Keys
    ensures ranks.Keys == members
  {
    map id | id in members :: (scores[id], 0)
  }

  /** `purge` of at most `limit` stale members, as every script but close begins. */
  method StaleMembers(scores: map<nat, nat>, now: nat, limit: nat) returns (stale: set<nat>)
    ensures IsStaleBatch(scores, now, limit, stale)
  {
    var members := set id | id in scores && scores[id] <= now;
    var ids := First(ByScore(scores, members), limit);
    FirstCounts(ByScore(scores, members), limit, ids);
    stale := Elements(ids);
    forall id | Stale(scores, id, now) && id !in stale
      ensures |stale| == limit && forall other <- stale :: scores[other] <= scores[id]
    {
      assert id in members && id !in ids;
      forall other <- stale ensures scores[other] <= scores[id] {
        var i :| 0 <= i < |ids| && ids[i] == other;
        assert Precedes(ByScore(scores, members), ids[i], id);
      }
    }
  }

  datatype SnapshotRow = SnapshotRow(revision: nat, total: nat, changed: bool, details: seq<Detail>)

  /** The Redis side. Every operation runs at one time `now`; `purged` names the purged connections. */
  class PresenceKeys {
    var keys: Keys
    const ttl: nat
    const purgeLimit: nat

    constructor (ttl: nat, purgeLimit: nat)
      ensures keys == Empty() && this.ttl == ttl && this.purgeLimit == purgeLimit
    {
      this.ttl, this.purgeLimit, keys := ttl, purgeLimit, Empty();
    }

    method OpenConnection(id: nat, detail: Detail, now: nat) returns (revision: nat, purged: set<nat>)
      modifies this
      ensures var k := Expire(old(keys), now);
              && IsStaleBatch(k.scores, now, purgeLimit, purged)
              && keys == OpenScript(k, now, purged, id, detail, ttl)
      ensures revision == RevisionOf(keys)
      ensures id in keys.scores && keys.scores[id] == now + ttl && id in keys.details && keys.details[id] == detail
    {
      keys := Expire(keys, now);
      purged := StaleMembers(keys.scores, now, purgeLimit);
      keys := Remove(keys, purged);
      keys := keys.(scores := keys.scores[id := now + ttl], details := keys.details[id := detail]);
      keys := Increment(keys);
      revision := keys.revision.value;
      keys := Retain(keys, now + 2 * ttl);
    }

    method RefreshConnection(id: nat, now: nat) returns (revision: nat, changed: bool, present: bool, purged: set<nat>)
      modifies this
      ensures var k := Expire(old(keys), now);
              && IsStaleBatch(k.scores, now, purgeLimit, purged)
              && Beat(keys, changed, present) == HeartbeatScript(k, now, purged, id, ttl)
      ensures revision == RevisionOf(keys)
      ensures revision == RevisionOf(Expire(old(keys), now)) + if changed then 1 else 0
      ensures present ==> id in keys.scores && keys.scores[id] == now + ttl
      ensures !present ==> id !in keys.details
    {
      keys := Expire(keys, now);
      purged := StaleMembers(keys.scores, now, purgeLimit);
      changed := false;
      if purged != {} {
        keys := Increment(Remove(keys, purged));
        changed := true;
      }
      if id !in keys.details { return RevisionOf(keys), changed, false, purged; }
      keys := keys.(scores := keys.scores[id := now + ttl]);
      if keys.revision.None? {
        keys := Increment(keys);
        changed := true;
      }
      revision := keys.revision.value;
      keys := Retain(keys, now + 2 * ttl);
      present := true;
    }

    method CloseConnection(id: nat, now: nat) returns (revision: nat)
      modifies this
      ensures keys == CloseScript(Expire(old(keys), now), now, id, ttl) && revision == RevisionOf(keys)
      ensures id !in keys.scores && id !in keys.details
    {
      keys := Expire(keys, now);
      var removed := id in keys.scores;
      keys := Remove(keys, {id});
      if !removed { return RevisionOf(keys); }
      keys := Increment(keys);
      keys := keys.(revisionExpires := Some(now + 2 * ttl));
      revision := RevisionOf(keys);
    }

    method ReadSnapshot(limit: nat, now: nat) returns (row: SnapshotRow, purged: set<nat>, ids: seq<nat>)
      modifies this
      ensures var k := Expire(old(keys), now);
              && IsStaleBatch(k.scores, now, purgeLimit, purged)
              && keys == SnapshotScript(k, purged)
              && row.changed == (purged != {})
      ensures row.revision == RevisionOf(keys) && row.total == |Fresh(keys.scores, now)|
      ensures IsFirst(ByScore(keys.scores, Fresh(keys.scores, now)), limit, ids)
      ensures row.total <= limit ==> Elements(ids) == Fresh(keys.scores, now)
      ensures |ids| == if row.total <= limit then row.total else limit
      ensures keys.scores.Keys == keys.details.Keys ==>
                |row.details| == |ids| && forall i | 0 <= i < |ids| :: ids[i] in keys.details && row.details[i] == keys.details[ids[i]]
    {
      keys := Expire(keys, now);
      purged := StaleMembers(keys.scores, now, purgeLimit);
      if purged != {} { keys := Increment(Remove(keys, purged)); }
      var current := Fresh(keys.scores, now);
      ids := First(ByScore(keys.scores, current), limit);
      FirstCounts(ByScore(keys.scores, current), limit, ids);
      var details: seq<Detail> := [];
      for i := 0 to |ids|
        invariant keys.scores.Keys == keys.details.Keys ==>
          |details| == i && forall k | 0 <= k < i :: ids[k] in keys.details && details[k] == keys.details[ids[k]]
      {
        assert ids[i] in ids;
        if ids[i] in keys.details { details := details + [keys.details[ids[i]]]; }
      }
      row := SnapshotRow(RevisionOf(keys), |current|, purged != {}, details);
    }
  }

  // ---------------------------------------------------------------------------------------------
  // The aggregated snapshot
  // ---------------------------------------------------------------------------------------------

  datatype Member = Member(participant: nat, role: nat)

  ghost predicate SortedMembers(members: seq<Member>) {
    forall i, j | 0 <= i < j < |members| :: members[i].participant < members[j].participant
  }

  /** The participants named by some details. */
  ghost function Named(details: seq<Detail>): set<nat> {
    set detail <- details :: detail.participant
  }

  ghost function Listed(members: seq<Member>): set<nat> {
    set member <- members :: member.participant
  }

  /** `aggregateParticipants`: one entry per participant with its last role, sorted by participant. */
  method AggregateParticipants(details: seq<Detail>) returns (members: seq<Member>)
    ensures SortedMembers(members) && Listed(members) == Named(details)
    ensures forall member <- members :: LastRole(details, member)
  {
    var roles := CollectRoles(details);
    var order := Ascending(roles.Keys);
    members := [];
    for i := 0 to |order|
      invariant |members| == i && forall k | 0 <= k < i :: order[k] in roles && members[k] == Member(order[k], roles[order[k]])
    {
      assert order[i] in Elements(order);
      members := members + [Member(order[i], roles[order[i]])];
    }
    forall p ensures p in Listed(members) <==> p in roles {
      if p in roles {
        assert p in Elements(order);
        var i :| 0 <= i < |order| && order[i] == p;
        assert members[i] in members;
      }
    }
  }

  method Ascending(ids: set<nat>) returns (order: seq<nat>)
    ensures Elements(order) == ids && forall i, j | 0 <= i < j < |order| :: order[i] < order[j]
  {
    var ranks: Ranks := map id | id in ids :: (0, 0);
    assert ranks.Keys == ids;
    order := First(ranks, |ids|);
    FirstCounts(ranks, |ids|, order);
    assert forall i, j | 0 <= i < j < |order| :: Precedes(ranks, order[i], order[j]);
  }

  /** The member carries the role of the participant's last detail. */
  ghost predicate LastRole(details: seq<Detail>, member: Member) {
    exists k :: 0 <= k < |details| && details[k] == Detail(member.participant, member.role)
      && forall l | k < l < |details| :: details[l].participant != member.participant
  }

  method CollectRoles(details: seq<Detail>) returns (roles: map<nat, nat>)
    ensures roles.Keys == Named(details)
    ensures forall p <- roles :: LastRole(details, Member(p, roles[p]))
  {
    roles := map[];
    for i := 0 to |details|
      invariant roles.Keys == Named(details[..i])
      invariant forall p <- roles :: LastRole(details[..i], Member(p, roles[p]))
    {
      ghost var before := roles;
      roles := roles[details[i].participant := details[i].role];
      var upTo := details[..i + 1];
      assert upTo == details[..i] + [details[i]];
      forall p <- roles ensures LastRole(upTo, Member(p, roles[p])) {
        if p == details[i].participant {
          assert upTo[i] == Detail(p, roles[p]);
        } else {
          var k :| 0 <= k < i && details[..i][k] == Detail(p, before[p])
                   && forall l | k < l < i :: details[..i][l].participant != p;
          assert upTo[k] == Detail(p, roles[p]);
        }
      }
    }
    assert details[..|details|] == details;
  }

  datatype View = View(revision: nat, participants: seq<Member>, truncated: bool)

  /** The two collections agree, as they do in every reachable state. */
  predicate Agreeing(k: Keys) {
    k.scores.Keys == k.details.Keys && k.scoresExpire == k.detailsExpire
  }

  lemma {:induction false} SortedCount(members: seq<Member>)
    requires SortedMembers(members)
    ensures |Listed(members)| == |members|
  {
    if members != [] {
      var init, last := members[..|members| - 1], members[|members| - 1];
      SortedCount(init);
      assert members == init + [last];
      assert Listed(members) == Listed(init) + {last.participant};
      assert last.participant !in Listed(init);
    }
  }

  /** The participants with a fresh connection. */
  ghost function Present(k: Keys, now: nat): set<nat>
    requires Agreeing(k)
  {
    set id <- Fresh(k.scores, now) :: k.details[id].participant
  }

  /** The details of some fresh connections name present participants, of all of them every one. */
  lemma DetailsNameThePresent(k: Keys, now: nat, ids: seq<nat>, details: seq<Detail>)
    requires Agreeing(k) && Elements(ids) <= Fresh(k.scores, now) && |details| == |ids|
    requires forall i | 0 <= i < |ids| :: ids[i] in k.details && details[i] == k.details[ids[i]]
    ensures Named(details) <= Present(k, now)
    ensures Elements(ids) == Fresh(k.scores, now) ==> Named(details) == Present(k, now)
  {
    forall p <- Named(details) ensures p in Present(k, now) {
      var i :| 0 <= i < |details| && details[i].participant == p;
      assert ids[i] in Elements(ids);
    }
    if Elements(ids) == Fresh(k.scores, now) {
      forall p <- Present(k, now) ensures p in Named(details) {
        var id :| id in Fresh(k.scores, now) && k.details[id].participant == p;
        assert id in Elements(ids);
        var i :| 0 <= i < |ids| && ids[i] == id;
        assert details[i] in details;
      }
    }
  }

  /** The snapshot of the service: when it is not truncated it lists exactly the participants with a
      fresh connection, each once and in order; when it is, it lists only such participants. */
  method TakeSnapshot(store: PresenceKeys, maxParticipants: nat, connectionsPerSession: nat, now: nat)
    returns (view: View)
    requires Agreeing(store.keys)
    modifies store
    ensures Agreeing(store.keys)
    ensures view.revision == RevisionOf(store.keys)
    ensures SortedMembers(view.participants) && |view.participants| <= maxParticipants
    ensures Listed(view.participants) <= Present(store.keys, now)
    ensures !view.truncated ==> Listed(view.participants) == Present(store.keys, now)
    ensures view.truncated <==> |Fresh(store.keys.scores, now)| > maxParticipants * connectionsPerSession
                                || |Present(store.keys, now)| > maxParticipants
  {
    var limit := maxParticipants * connectionsPerSession;
    var row, purged, ids := store.ReadSnapshot(limit, now);
    var members := AggregateParticipants(row.details);
    var shown := if |members| <= maxParticipants then members else members[..maxParticipants];
    view := View(row.revision, shown, row.total > limit || |members| > maxParticipants);
    DetailsNameThePresent(store.keys, now, ids, row.details);
    forall member <- shown ensures member.participant in Named(row.details) {
      assert member in members && member.participant in Listed(members);
    }
    SortedCount(members);
  }
}
