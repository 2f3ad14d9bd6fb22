/** Forward paging over the durable log (src/modules/chat/postgres-chat.repository.ts:168-221, with the
    limit clamp of src/modules/chat/manage-chat.use-case.ts:95-99). Each page reads one snapshot; rows
    may expire between pages and the log may grow. */
module History {
  import opened ChatTypes
  import opened Runs
  import ChatLog

  /** The head and the unexpired rows one repeatable-read transaction sees. */
  datatype Snapshot = Snapshot(head: nat, rows: map<nat, ChatMessage>)

  /** The epochs during which the device belongs to a group; the key of the table allows one row per
      group and device. */
  datatype Membership = Membership(addedEpoch: nat, removedEpoch: Option<nat>)

  datatype Page = Page(messages: seq<ChatMessage>, nextAfterPosition: nat, highWatermark: nat, hasMore: bool)

  /** Who asks: memberships of the device, and the participant's history floor (0 when shared). */
  datatype Reader = Reader(memberships: map<nat, Membership>, floor: nat)

  predicate Visible(reader: Reader, message: ChatMessage) {
    && message.content.groupId in reader.memberships
    && var membership := reader.memberships[message.content.groupId];
       && membership.addedEpoch <= message.content.epoch
       && (membership.removedEpoch.None? || message.content.epoch < membership.removedEpoch.value)
  }

  predicate Matches(reader: Reader, rows: map<nat, ChatMessage>, position: nat) {
    position in rows && Visible(reader, rows[position])
  }

  /** The visible rows at positions `low + 1 .. high`, in position order. */
  function Matching(reader: Reader, rows: map<nat, ChatMessage>, low: nat, high: nat): seq<ChatMessage>
    decreases high
  {
    if high <= low then []
    else Matching(reader, rows, low, high - 1) + if Matches(reader, rows, high) then [rows[high]] else []
  }

  function Take<T>(items: seq<T>, count: nat): seq<T> {
    if |items| <= count then items else items[..count]
  }

  function Effective(reader: Reader, requested: nat): nat {
    if requested > reader.floor then requested else reader.floor
  }

  function ReadPage(reader: Reader, snapshot: Snapshot, requested: nat, limit: nat): Page {
    var after := Effective(reader, requested);
    var selected := Take(Matching(reader, snapshot.rows, after, snapshot.head), limit + 1);
    var hasMore := |selected| > limit;
    var messages := Take(selected, limit);
    var next :=
      if !hasMore then snapshot.head
      else if messages == [] then after
      else messages[|messages| - 1].position;
    Page(messages, next, snapshot.head, hasMore)
  }

  function ClampLimit(limit: int, maximum: nat): (clamped: nat)
    requires maximum >= 1
    ensures 1 <= clamped <= maximum
    ensures 1 <= limit <= maximum ==> clamped == limit
  {
    var atLeastOne := if limit < 1 then 1 else limit;
    if atLeastOne > maximum then maximum else atLeastOne
  }

  // ---------------------------------------------------------------------------------------------
  // One page
  // ---------------------------------------------------------------------------------------------

  ghost predicate WellFormed(snapshot: Snapshot) {
    forall p <- snapshot.rows :: 1 <= p <= snapshot.head && snapshot.rows[p].position == p
  }

  /** Strictly ascending positions inside `(low, high]`. */
  ghost predicate Ascending(messages: seq<ChatMessage>, low: nat, high: nat) {
    && (forall i | 0 <= i < |messages| :: low < messages[i].position <= high)
    && (forall i, j | 0 <= i < j < |messages| :: messages[i].position < messages[j].position)
  }

  lemma {:induction false} MatchingIsExact(reader: Reader, rows: map<nat, ChatMessage>, low: nat, high: nat)
    requires forall p <- rows :: rows[p].position == p
    ensures var found := Matching(reader, rows, low, high);
            && Ascending(found, low, high)
            && (forall message <- found :: Matches(reader, rows, message.position) && rows[message.position] == message)
            && (forall p | low < p <= high && Matches(reader, rows, p) :: rows[p] in found)
    decreases high
  {
    if high > low {
      MatchingIsExact(reader, rows, low, high - 1);
      var before := Matching(reader, rows, low, high - 1);
      var found := Matching(reader, rows, low, high);
      forall p | low < p <= high && Matches(reader, rows, p) ensures rows[p] in found {
        if p < high { assert rows[p] in before; }
      }
    }
  }

  lemma {:induction false} MatchingSplits(reader: Reader, rows: map<nat, ChatMessage>, low: nat, middle: nat, high: nat)
    requires low <= middle <= high
    ensures Matching(reader, rows, low, high)
            == Matching(reader, rows, low, middle) + Matching(reader, rows, middle, high)
    decreases high
  {
    if middle < high { MatchingSplits(reader, rows, low, middle, high - 1); }
  }

  /** The first `count` matches are exactly the matches up to the position of the last of them. */
  lemma {:induction false} MatchingCut(reader: Reader, rows: map<nat, ChatMessage>, low: nat, high: nat, count: nat)
    requires forall p <- rows :: rows[p].position == p
    requires 1 <= count <= |Matching(reader, rows, low, high)|
    ensures var found := Matching(reader, rows, low, high);
            Matching(reader, rows, low, found[count - 1].position) == found[..count]
    decreases high
  {
    var found := Matching(reader, rows, low, high);
    var before := Matching(reader, rows, low, high - 1);
    if count <= |before| {
      MatchingCut(reader, rows, low, high - 1, count);
      assert found[..count] == before[..count] && found[count - 1] == before[count - 1];
    } else {
      assert found[..count] == found;
    }
  }

  /** A page is every visible row above the effective cursor up to where the next page resumes, and a
      page with more behind it strictly advances without passing the head. */
  lemma PageIsExact(reader: Reader, snapshot: Snapshot, requested: nat, limit: nat)
    requires WellFormed(snapshot) && limit >= 1
    ensures var page := ReadPage(reader, snapshot, requested, limit);
            var after := Effective(reader, requested);
            && page.messages == Matching(reader, snapshot.rows, after, page.nextAfterPosition)
            && |page.messages| <= limit
            && (page.hasMore ==> after < page.nextAfterPosition < page.highWatermark && |page.messages| == limit)
            && (!page.hasMore ==> page.nextAfterPosition == snapshot.head)
            && (page.hasMore <==> |Matching(reader, snapshot.rows, after, snapshot.head)| > limit)
  {
    var page := ReadPage(reader, snapshot, requested, limit);
    var after := Effective(reader, requested);
    var found := Matching(reader, snapshot.rows, after, snapshot.head);
    MatchingIsExact(reader, snapshot.rows, after, snapshot.head);
    if page.hasMore {
      assert page.messages == found[..limit];
      MatchingCut(reader, snapshot.rows, after, snapshot.head, limit);
      assert found[limit - 1].position < found[limit].position;
    }
  }

  /** In the reader's own terms: a page holds exactly the rows above the requested position and above the
      reader's history floor, up to where the next page resumes, that were sent to a group at an epoch at
      which the device belonged to it; and it reports the head of its snapshot. */
  lemma PageIsWhatTheReaderMaySee(reader: Reader, snapshot: Snapshot, requested: nat, limit: nat)
    requires WellFormed(snapshot) && limit >= 1
    ensures var page := ReadPage(reader, snapshot, requested, limit);
            && page.highWatermark == snapshot.head
            && (forall message <- page.messages ::
                  && requested < message.position <= page.nextAfterPosition && reader.floor < message.position
                  && message.position in snapshot.rows && snapshot.rows[message.position] == message
                  && message.content.groupId in reader.memberships
                  && var member := reader.memberships[message.content.groupId];
                     && member.addedEpoch <= message.content.epoch
                     && (member.removedEpoch.Some? ==> message.content.epoch < member.removedEpoch.value))
            && (forall p | requested < p <= page.nextAfterPosition && reader.floor < p && p in snapshot.rows ::
                  var message := snapshot.rows[p];
                  message in page.messages <==>
                    && message.content.groupId in reader.memberships
                    && var member := reader.memberships[message.content.groupId];
                       && member.addedEpoch <= message.content.epoch
                       && (member.removedEpoch.Some? ==> message.content.epoch < member.removedEpoch.value))
  {
    var page := ReadPage(reader, snapshot, requested, limit);
    PageIsExact(reader, snapshot, requested, limit);
    MatchingIsExact(reader, snapshot.rows, Effective(reader, requested), page.nextAfterPosition);
    forall p | requested < p <= page.nextAfterPosition && reader.floor < p && p in snapshot.rows
      ensures snapshot.rows[p] in page.messages <==> Matches(reader, snapshot.rows, p)
    {
      if snapshot.rows[p] in page.messages { assert snapshot.rows[p].position == p; }
    }
  }

  /** The returned cursor goes back exactly when the client asked for a position beyond the head. */
  lemma CursorFallsBackExactly(reader: Reader, snapshot: Snapshot, requested: nat, limit: nat)
    requires WellFormed(snapshot) && limit >= 1
    ensures ReadPage(reader, snapshot, requested, limit).nextAfterPosition < requested <==> requested > snapshot.head
  {
    PageIsExact(reader, snapshot, requested, limit);
  }

  // ---------------------------------------------------------------------------------------------
  // Following the cursor
  // ---------------------------------------------------------------------------------------------

  /** `later` may have a higher head and fewer old rows, and never a new or different old row. */
  ghost predicate Later(earlier: Snapshot, later: Snapshot) {
    && earlier.head <= later.head
    && forall p <- later.rows | p <= earlier.head :: p in earlier.rows && earlier.rows[p] == later.rows[p]
  }

  /** `later` also kept every old row. */
  ghost predicate Kept(earlier: Snapshot, later: Snapshot) {
    forall p <- earlier.rows :: p in later.rows && later.rows[p] == earlier.rows[p]
  }

  ghost predicate Ordered(snapshots: seq<Snapshot>) {
    && (forall snapshot <- snapshots :: WellFormed(snapshot))
    && (forall i, j | 0 <= i < j < |snapshots| :: Later(snapshots[i], snapshots[j]))
  }

  /** The client follows `nextAfterPosition` page by page until a page says that there is no more. */
  ghost predicate Followed(reader: Reader, snapshots: seq<Snapshot>, cursor: nat, limit: nat) {
    && snapshots != []
    && var page := ReadPage(reader, snapshots[0], cursor, limit);
       if page.hasMore then Followed(reader, snapshots[1..], page.nextAfterPosition, limit)
       else |snapshots| == 1
  }

  function Collected(reader: Reader, snapshots: seq<Snapshot>, cursor: nat, limit: nat): seq<ChatMessage> {
    if snapshots == [] then []
    else
      var page := ReadPage(reader, snapshots[0], cursor, limit);
      page.messages + Collected(reader, snapshots[1..], page.nextAfterPosition, limit)
  }

  /** `message` was readable in one of the snapshots. */
  ghost predicate WasReadable(reader: Reader, snapshots: seq<Snapshot>, message: ChatMessage) {
    exists snapshot <- snapshots ::
      Matches(reader, snapshot.rows, message.position) && snapshot.rows[message.position] == message
  }

  /** `all` is ascending, holds every row above `low` readable in the last snapshot, and holds only
      rows that were readable in some snapshot. */
  ghost predicate Complete(reader: Reader, snapshots: seq<Snapshot>, low: nat, all: seq<ChatMessage>)
    requires snapshots != []
  {
    var last := snapshots[|snapshots| - 1];
    && Ascending(all, low, last.head)
    && (forall p | low < p <= last.head && Matches(reader, last.rows, p) :: last.rows[p] in all)
    && (forall message <- all :: WasReadable(reader, snapshots, message))
  }

  lemma PrependPage(reader: Reader, snapshots: seq<Snapshot>, low: nat, next: nat, tail: seq<ChatMessage>)
    requires |snapshots| >= 2 && Ordered(snapshots)
    requires low <= next <= snapshots[0].head
    requires Complete(reader, snapshots[1..], next, tail)
    ensures Complete(reader, snapshots, low, Matching(reader, snapshots[0].rows, low, next) + tail)
  {
    var first, rest, last := snapshots[0], snapshots[1..], snapshots[|snapshots| - 1];
    var messages := Matching(reader, first.rows, low, next);
    assert first in snapshots && WellFormed(first);
    MatchingIsExact(reader, first.rows, low, next);
    assert rest[|rest| - 1] == last && Later(first, last);
    forall p | low < p <= last.head && Matches(reader, last.rows, p) ensures last.rows[p] in messages + tail {
      if p <= next { assert Matches(reader, first.rows, p); }
    }
    forall message <- messages + tail ensures WasReadable(reader, snapshots, message) {
      if message in messages {
        assert first in snapshots;
      } else {
        var snapshot :| snapshot in rest && Matches(reader, snapshot.rows, message.position)
                        && snapshot.rows[message.position] == message;
        assert snapshot in snapshots;
      }
    }
  }

  /** Following the cursor yields, once each and in order, every visible message above the floor that
      is still readable at the end, and only messages that were readable when their page was read,
      even if the log grows and rows expire in between. */
  lemma {:induction false} PagingIsComplete(reader: Reader, snapshots: seq<Snapshot>, cursor: nat, limit: nat)
    requires limit >= 1 && Ordered(snapshots) && Followed(reader, snapshots, cursor, limit)
    ensures Complete(reader, snapshots, Effective(reader, cursor), Collected(reader, snapshots, cursor, limit))
    decreases |snapshots|
  {
    var first, rest := snapshots[0], snapshots[1..];
    var low := Effective(reader, cursor);
    var page := ReadPage(reader, first, cursor, limit);
    PageIsExact(reader, first, cursor, limit);
    if page.hasMore {
      assert Ordered(rest) by {
        assert forall i | 0 <= i < |rest| :: rest[i] == snapshots[i + 1];
      }
      PagingIsComplete(reader, rest, page.nextAfterPosition, limit);
      PrependPage(reader, snapshots, low, page.nextAfterPosition,
                  Collected(reader, rest, page.nextAfterPosition, limit));
    } else {
      assert Collected(reader, rest, page.nextAfterPosition, limit) == [];
      assert Collected(reader, snapshots, cursor, limit) == page.messages;
      LastPageCompletes(reader, first, low);
      assert snapshots == [first];
    }
  }

  /** Everything readable above a position, in one page. */
  lemma LastPageCompletes(reader: Reader, snapshot: Snapshot, low: nat)
    requires WellFormed(snapshot)
    ensures Complete(reader, [snapshot], low, Matching(reader, snapshot.rows, low, snapshot.head))
  {
    var found := Matching(reader, snapshot.rows, low, snapshot.head);
    MatchingIsExact(reader, snapshot.rows, low, snapshot.head);
    forall message <- found ensures WasReadable(reader, [snapshot], message) {
      assert snapshot in [snapshot];
    }
  }

  /** Without expiry the pages concatenate to exactly one query over the final snapshot. */
  lemma {:induction false} PagingEqualsOneQuery(reader: Reader, snapshots: seq<Snapshot>, cursor: nat, limit: nat)
    requires limit >= 1 && Ordered(snapshots) && Followed(reader, snapshots, cursor, limit)
    requires forall i, j | 0 <= i < j < |snapshots| :: Kept(snapshots[i], snapshots[j])
    ensures var last := snapshots[|snapshots| - 1];
            Collected(reader, snapshots, cursor, limit)
            == Matching(reader, last.rows, Effective(reader, cursor), last.head)
    decreases |snapshots|
  {
    var first, rest := snapshots[0], snapshots[1..];
    var last := snapshots[|snapshots| - 1];
    var low := Effective(reader, cursor);
    var page := ReadPage(reader, first, cursor, limit);
    PageIsExact(reader, first, cursor, limit);
    if !page.hasMore {
      assert rest == [];
    } else {
      RestIsOrdered(snapshots);
      PagingEqualsOneQuery(reader, rest, page.nextAfterPosition, limit);
      assert rest[|rest| - 1] == last && Later(first, last) && Kept(first, last);
      PageJoinsQuery(reader, first, last, low, page.nextAfterPosition);
    }
  }

  lemma RestIsOrdered(snapshots: seq<Snapshot>)
    requires snapshots != [] && Ordered(snapshots)
    requires forall i, j | 0 <= i < j < |snapshots| :: Kept(snapshots[i], snapshots[j])
    ensures var rest := snapshots[1..];
            Ordered(rest) && forall i, j | 0 <= i < j < |rest| :: Kept(rest[i], rest[j])
  {
    assert forall i | 0 <= i < |snapshots| - 1 :: snapshots[1..][i] == snapshots[i + 1];
  }

  /** A page and the later query that resumes where it ended are one query. */
  lemma PageJoinsQuery(reader: Reader, first: Snapshot, last: Snapshot, low: nat, next: nat)
    requires Later(first, last) && Kept(first, last) && low <= next <= first.head
    ensures Matching(reader, first.rows, low, next) + Matching(reader, last.rows, next, last.head)
            == Matching(reader, last.rows, low, last.head)
  {
    MatchingAgrees(reader, first, last, low, next);
    MatchingSplits(reader, last.rows, low, next, last.head);
  }

  lemma {:induction false} MatchingAgrees(reader: Reader, earlier: Snapshot, later: Snapshot, low: nat, high: nat)
    requires high <= earlier.head && Later(earlier, later) && Kept(earlier, later)
    ensures Matching(reader, earlier.rows, low, high) == Matching(reader, later.rows, low, high)
    decreases high
  {
    if high > low {
      MatchingAgrees(reader, earlier, later, low, high - 1);
      assert Matches(reader, earlier.rows, high) <==> Matches(reader, later.rows, high);
    }
  }

  // ---------------------------------------------------------------------------------------------
  // The log provides such snapshots
  // ---------------------------------------------------------------------------------------------

  function SnapshotOf(store: ChatLog.Store, expired: set<nat>): Snapshot {
    Snapshot(store.head, store.rows - expired)
  }

  /** Snapshots of any run of the log, taken in order while rows only expire, satisfy what paging needs. */
  lemma LogSnapshotsAreOrdered(states: seq<ChatLog.Store>, i: nat, j: nat, expired: set<nat>, expiredLater: set<nat>)
    requires IsRun(ChatLog.Next, states) && states[0] == ChatLog.Initial() && i <= j < |states|
    requires expired <= expiredLater
    ensures WellFormed(SnapshotOf(states[i], expired))
    ensures Later(SnapshotOf(states[i], expired), SnapshotOf(states[j], expiredLater))
  {
    ChatLog.LogStaysDense(states);
    assert ChatLog.Inv(states[i]);
    ChatLog.HistoryOnlyGrows(states, i, j);
  }

  /** The cursor does fall back: on a new stream a request after position 5 is answered with cursor 0. */
  lemma NewStreamFallsBack(reader: Reader)
    ensures var page := ReadPage(reader, SnapshotOf(ChatLog.Initial(), {}), 5, 10);
            page.nextAfterPosition == 0 && page.messages == [] && !page.hasMore
  {
    CursorFallsBackExactly(reader, SnapshotOf(ChatLog.Initial(), {}), 5, 10);
  }
}
