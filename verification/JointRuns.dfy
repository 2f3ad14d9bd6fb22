/** Runs of the joint machine that show what can happen. */
module JointRuns {
  import opened ChatTypes
  import opened Runs
  import opened LiveCursor
  import opened CursorConfluence
  import opened JointStream
  import opened EndToEnd
  import Log = ChatLog
  import Live = LiveDelivery
  import History

  ghost function Last(states: seq<Joint>): Joint
    requires states != []
  {
    states[|states| - 1]
  }

  /** One more step of a run. */
  lemma OneStep(limit: nat, states: seq<Joint>, step: Step)
    requires IsJointRun(limit, states) && Enabled(Last(states), step)
    ensures IsJointRun(limit, states + [Apply(limit, Last(states), step)])
    ensures Last(states + [Apply(limit, Last(states), step)]) == Apply(limit, Last(states), step)
  {
    var next := (j: Joint, k: Joint) => Next(limit, j, k);
    var t := Apply(limit, Last(states), step);
    assert next(Last(states), t);
    ExtendRun(next, states, t);
    assert (states + [t])[0] == states[0];
  }

  // ---------------------------------------------------------------------------------------------
  // A run of one room's transactions is a joint run
  // ---------------------------------------------------------------------------------------------

  /** `k` differs from `j` only in what was committed in the room. */
  ghost predicate OnlyLogged(j: Joint, k: Joint, room: nat, store: Log.Store) {
    && StoreAt(k, room) == store
    && (forall other: nat | other != room :: StoreAt(k, other) == StoreAt(j, other))
    && k.world.fanout == j.world.fanout && k.world.published == j.world.published && k.world.poll == j.world.poll
    && k.asked == j.asked && k.served == j.served
  }

  ghost predicate Lifts(limit: nat, states: seq<Joint>, more: seq<Joint>, room: nat, store: Log.Store) {
    && states != [] && IsJointRun(limit, more) && states <= more
    && OnlyLogged(Last(states), Last(more), room, store)
  }

  lemma LogStepOnlyLogs(limit: nat, j: Joint, room: nat, log: Log.Step)
    requires Enabled(j, LogStep(room, log))
    ensures OnlyLogged(j, Apply(limit, j, LogStep(room, log)), room, Log.Apply(StoreAt(j, room), log))
  {
  }

  lemma OnlyLoggedTwice(j: Joint, k: Joint, l: Joint, room: nat, one: Log.Store, two: Log.Store)
    requires OnlyLogged(j, k, room, one) && OnlyLogged(k, l, room, two)
    ensures OnlyLogged(j, l, room, two)
  {
  }

  lemma {:induction false} LiftLog(limit: nat, states: seq<Joint>, room: nat, stores: seq<Log.Store>)
    requires IsJointRun(limit, states) && IsRun(Log.Next, stores) && stores[0] == StoreAt(Last(states), room)
    ensures var store := stores[|stores| - 1]; exists more :: Lifts(limit, states, more, room, store)
    decreases |stores|
  {
    var last := |stores| - 1;
    var store := stores[last];
    if last == 0 {
      assert states <= states && OnlyLogged(Last(states), Last(states), room, store);
      assert Lifts(limit, states, states, room, store);
    } else {
      var init := stores[..last];
      SubRun(Log.Next, stores, 0, last - 1);
      assert stores[0..last - 1 + 1] == init && init[last - 1] == stores[last - 1];
      LiftLog(limit, states, room, init);
      var more :| Lifts(limit, states, more, room, stores[last - 1]);
      assert Log.Next(stores[last - 1], stores[last]);
      LiftOne(limit, states, more, room, stores[last - 1], stores[last]);
    }
  }

  lemma LiftOne(limit: nat, states: seq<Joint>, more: seq<Joint>, room: nat, one: Log.Store, two: Log.Store)
    requires Lifts(limit, states, more, room, one) && Log.Next(one, two)
    ensures exists longer :: Lifts(limit, states, longer, room, two)
  {
    var log :| Log.Enabled(one, log) && two == Log.Apply(one, log);
    OneStep(limit, more, LogStep(room, log));
    LogStepOnlyLogs(limit, Last(more), room, log);
    var t := Apply(limit, Last(more), LogStep(room, log));
    OnlyLoggedTwice(Last(states), Last(more), t, room, one, two);
    assert states <= more <= more + [t];
    assert Lifts(limit, states, more + [t], room, two);
  }

  // ---------------------------------------------------------------------------------------------
  // Asking ahead loses an event silently
  // ---------------------------------------------------------------------------------------------

  /** Socket 0 stands in room 0 with nothing heard, called back or buffered, at this position. */
  ghost predicate Quiet(j: Joint, position: nat) {
    && Registered(j, 0)
    && var r := j.world.fanout.registrations[0];
       && r.room == 0 && r.start == Some(0)
       && r.listener == Live.Listener([], Some(Fresh(position)), true, false, [])
  }

  /** A socket subscribes to an empty stream and is activated. */
  lemma QuietSocket(limit: nat, request: Request) returns (states: seq<Joint>)
    requires request.limit >= 1
    ensures IsJointRun(limit, states) && Quiet(Last(states), 0) && StoreAt(Last(states), 0) == Log.Initial()
    ensures Last(states).asked == map[]
    ensures ServedTo(Last(states), 0) == [Serve(Log.Initial(), request, 0)]
  {
    states := [Initial()];
    OneStep(limit, states, LiveStep(Live.WatchRoom(0, 0)));
    states := states + [Apply(limit, Last(states), LiveStep(Live.WatchRoom(0, 0)))];
    OneStep(limit, states, Subscribe(0, request));
    states := states + [Apply(limit, Last(states), Subscribe(0, request))];
    OneStep(limit, states, LiveStep(Live.StartCursor(0)));
    states := states + [Apply(limit, Last(states), LiveStep(Live.StartCursor(0)))];
    OneStep(limit, states, LiveStep(Live.ActivateCursor(0)));
    states := states + [Apply(limit, Last(states), LiveStep(Live.ActivateCursor(0)))];
  }

  /** The event of the room is readable, was never delivered nor announced, and is in no page that was
      sent, although the socket stands past it. */
  ghost predicate LostSilently(j: Joint, reader: History.Reader) {
    && Quiet(j, 1) && |LogOf(j, 0)| == 1
    && |ServedTo(j, 0)| == 2 && ServedTo(j, 0)[1].request.reader == reader && Readable(ServedTo(j, 0)[1], 1)
    && ServedTo(j, 0)[0].page.messages == [] && ServedTo(j, 0)[1].page.messages == []
  }

  /** The whole run: event 1 is committed and lost by Redis, the client asks for what follows position 1. */
  ghost predicate LosesSilently(limit: nat, states: seq<Joint>, reader: History.Reader) {
    IsJointRun(limit, states) && LostSilently(Last(states), reader)
  }

  lemma EmptyPage(reader: History.Reader, limit: nat)
    requires limit >= 1
    ensures Serve(Log.Initial(), Request(reader, 0, limit, {}), 0).page.messages == []
  {
    var snapshot := History.SnapshotOf(Log.Initial(), {});
    assert History.Matching(reader, snapshot.rows, History.Effective(reader, 0), 0) == [];
  }

  /** What follows the only event is nothing, and the next cursor is its position. */
  lemma PageAhead(reader: History.Reader, store: Log.Store, limit: nat)
    requires store.head == 1 && reader.floor <= 1 && limit >= 1
    ensures var page := Serve(store, Request(reader, 1, limit, {}), 0).page;
            page.messages == [] && page.nextAfterPosition == 1
  {
    var snapshot := History.SnapshotOf(store, {});
    assert History.Matching(reader, snapshot.rows, 1, 1) == [];
  }

  /** A quiet cursor that advances calls nothing back. */
  lemma QuietAdvance()
    ensures Advance(Fresh(0), 1) == Outcome(Fresh(1), [])
  {
    KeptOfNothing(Fresh(0).pending);
    assert Flush(1, map[]) == Outcome(Fresh(1), []);
  }

  lemma KeptOfNothing(pending: map<nat, ChatMessage>)
    ensures pending == map[] ==> (map key | key in pending && key > 1 :: pending[key]) == map[]
  {
  }

  /** The sync request and its answer. */
  lemma AskAndAnswer(limit: nat, states: seq<Joint>, reader: History.Reader, command: Log.Command)
    requires IsJointRun(limit, states) && Quiet(Last(states), 0) && 0 !in Last(states).asked
    requires StoreAt(Last(states), 0) == Log.AfterStoring(Log.Initial(), command, 0, 0)
    requires ServedTo(Last(states), 0) == [Serve(Log.Initial(), Request(reader, 0, 1, {}), 0)]
    requires reader.floor <= 1 && History.Visible(reader, Log.Written(Log.Initial(), command, 0))
    ensures exists more :: LosesSilently(limit, more, reader)
  {
    var request := Request(reader, 1, 1, {});
    var store := StoreAt(Last(states), 0);
    PageAhead(reader, store, 1);
    EmptyPage(reader, 1);
    QuietAdvance();
    OneStep(limit, states, Ask(0, request));
    var asked := Apply(limit, Last(states), Ask(0, request));
    assert asked.asked[0] == Serve(store, request, 0);
    OneStep(limit, states + [asked], Answer(0));
    var answered := Apply(limit, asked, Answer(0));
    AnsweredIsLost(limit, asked, answered, reader, command);
    assert LosesSilently(limit, states + [asked] + [answered], reader);
  }

  lemma AnsweredIsLost(limit: nat, asked: Joint, answered: Joint, reader: History.Reader, command: Log.Command)
    requires Quiet(asked, 0) && Enabled(asked, Answer(0)) && answered == Apply(limit, asked, Answer(0))
    requires StoreAt(asked, 0) == Log.AfterStoring(Log.Initial(), command, 0, 0)
    requires asked.asked[0] == Serve(StoreAt(asked, 0), Request(reader, 1, 1, {}), 0)
    requires asked.asked[0].page.messages == [] && asked.asked[0].page.nextAfterPosition == 1
    requires |ServedTo(asked, 0)| == 1 && ServedTo(asked, 0)[0].page.messages == []
    requires Advance(Fresh(0), 1) == Outcome(Fresh(1), [])
    requires History.Visible(reader, Log.Written(Log.Initial(), command, 0))
    ensures LostSilently(answered, reader)
  {
    var r := asked.world.fanout.registrations[0];
    assert Live.AdvanceListener(r.listener, 1) == Live.Listener([], Some(Fresh(1)), true, false, []);
    var sent := asked.asked[0].(cursor := 0);
    assert ServedTo(answered, 0) == ServedTo(asked, 0) + [sent];
    assert sent.snapshot.rows == map[1 := Log.Written(Log.Initial(), command, 0)];
    assert Readable(sent, 1);
  }

  /** A client that asks ahead of its socket can lose an event for good: no delivery, no gap report, no page
      holds it, and the socket stands past it. This happens for every readable event. */
  lemma AskingAheadSkipsSilently(limit: nat, reader: History.Reader, command: Log.Command)
    requires reader.floor <= 1 && History.Visible(reader, Log.Written(Log.Initial(), command, 0))
    ensures exists states :: LosesSilently(limit, states, reader)
  {
    var quiet := QuietSocket(limit, Request(reader, 0, 1, {}));
    assert Log.Inv(Log.Initial());
    Log.FreeKeyIsStored([Log.Initial()], 0, command, 0, 0);
    var stores: seq<Log.Store> :| Log.Stores([Log.Initial()], stores, command, 0, 0);
    assert stores[0] == [Log.Initial()][0];
    LiftLog(limit, quiet, 0, stores);
    var states :| Lifts(limit, quiet, states, 0, stores[|stores| - 1]);
    AskAndAnswer(limit, states, reader, command);
  }
}
