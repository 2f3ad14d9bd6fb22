/** What the pages sent to one socket amount to: followed to the end they bring the socket to their
    watermark, and it is exact which events came both in a page and live
    (src/modules/realtime/realtime.gateway.ts:187-203, 395-452). */
module ServedPages {
  import opened ChatTypes
  import opened Runs
  import opened LiveCursor
  import opened CursorConfluence
  import opened JointStream
  import opened EndToEnd
  import Log = ChatLog
  import Live = LiveDelivery
  import History

  // ---------------------------------------------------------------------------------------------
  // The socket stands at or past every page it was sent
  // ---------------------------------------------------------------------------------------------

  /** Every page ends at or below the cursor, and no page was sent before the cursor had passed the earlier
      ones; for a cursor that has not overflowed. */
  ghost predicate Reached(cursor: Cursor, served: seq<Served>) {
    !cursor.overflowed ==>
      && (forall k | 0 <= k < |served| :: served[k].page.nextAfterPosition <= cursor.position)
      && (forall k, l | 0 <= k < l < |served| :: served[k].page.nextAfterPosition <= served[l].cursor)
  }

  /** The cursor that a registration's inputs make. */
  ghost function CursorOf(limit: nat, r: Live.Registration): Cursor
    requires r.start.Some?
  {
    Run(limit, Fresh(r.start.value), r.inputs).cursor
  }

  ghost predicate RegistrationReached(limit: nat, r: Live.Registration, served: seq<Served>) {
    r.start.Some? && (r.listener.active || !r.listener.overflowed) ==> Reached(CursorOf(limit, r), served)
  }

  ghost predicate ReachInv(limit: nat, j: Joint) {
    forall id <- j.world.fanout.registrations ::
      RegistrationReached(limit, j.world.fanout.registrations[id], ServedTo(j, id))
  }

  /** More inputs never move a cursor back, nor undo an overflow. */
  lemma {:induction false} MoreInputs(limit: nat, start: nat, first: seq<Input>, more: seq<Input>)
    requires first <= more
    ensures var one, two := Run(limit, Fresh(start), first).cursor, Run(limit, Fresh(start), more).cursor;
            one.position <= two.position && (one.overflowed ==> two.overflowed)
    decreases |more|
  {
    if |more| > |first| {
      var init := more[..|more| - 1];
      MoreInputs(limit, start, first, init);
      CursorSafety(limit, start, init);
      CallSafe(limit, Run(limit, Fresh(start), init).cursor, more[|more| - 1]);
    } else {
      assert more == first;
    }
  }

  lemma HeardReached(limit: nat, r: Live.Registration, t: Live.Registration, served: seq<Served>)
    requires Heard(r, t) && (t.listener.overflowed || !r.listener.overflowed || t.listener.active)
    requires RegistrationReached(limit, r, served)
    ensures RegistrationReached(limit, t, served)
  {
    if t.start.Some? { MoreInputs(limit, r.start.value, r.inputs, t.inputs); }
  }

  /** Hearing something never clears the overflow of a handover buffer. */
  lemma OverflowStays(limit: nat, w: Live.World, live: Live.Step, id: nat)
    requires Live.Enabled(w, live) && id in w.fanout.registrations && id in Live.Apply(limit, w, live).fanout.registrations
    ensures w.fanout.registrations[id].listener.overflowed ==>
              Live.Apply(limit, w, live).fanout.registrations[id].listener.overflowed
  {
    if live.ApplyHeads? { PollKeepsOverflow(limit, w.fanout, w.poll.value, id); }
  }

  lemma {:induction false} PollKeepsOverflow(limit: nat, f: Live.Fanout, heads: seq<(nat, nat)>, id: nat)
    requires id in f.registrations
    ensures var g := Live.ApplyPoll(limit, f, heads);
            id in g.registrations && (f.registrations[id].listener.overflowed ==> g.registrations[id].listener.overflowed)
    decreases |heads|
  {
    if heads != [] { PollKeepsOverflow(limit, f, heads[..|heads| - 1], id); }
  }

  lemma LiveStepReached(limit: nat, w: Live.World, live: Live.Step, id: nat, served: seq<Served>)
    requires Live.Enabled(w, live) && !live.ReadPage? && !live.AdvanceCursor? && id in w.fanout.registrations
    requires RegistrationReached(limit, w.fanout.registrations[id], served)
    ensures id in Live.Apply(limit, w, live).fanout.registrations
    ensures RegistrationReached(limit, Live.Apply(limit, w, live).fanout.registrations[id], served)
  {
    LiveStepHeard(limit, w, live, id);
    OverflowStays(limit, w, live, id);
    if !(live.ActivateCursor? && live.id == id) {
      HeardReached(limit, w.fanout.registrations[id], Live.Apply(limit, w, live).fanout.registrations[id], served);
    }
  }

  lemma AnswerReached(limit: nat, j: Joint, id: nat)
    requires Enabled(j, Answer(id)) && Live.Seamless(limit, j.world.fanout.registrations[id])
    requires RegistrationReached(limit, j.world.fanout.registrations[id], ServedTo(j, id))
    ensures var k := Apply(limit, j, Answer(id));
            RegistrationReached(limit, k.world.fanout.registrations[id], ServedTo(k, id))
  {
    var r := j.world.fanout.registrations[id];
    SendReached(limit, r, ServedTo(j, id), j.asked[id].(cursor := r.listener.cursor.value.position));
  }

  lemma SendReached(limit: nat, r: Live.Registration, served: seq<Served>, sent: Served)
    requires Live.Seamless(limit, r) && RegistrationReached(limit, r, served) && r.listener.cursor.Some?
    requires (r.listener.active || r.listener.overflowed) && sent.cursor == r.listener.cursor.value.position
    ensures var next := sent.page.nextAfterPosition;
            RegistrationReached(
              limit, r.(inputs := r.inputs + [Advancing(next)], listener := Live.AdvanceListener(r.listener, next)),
              served + [sent])
  {
    if r.listener.active { AdvanceReached(limit, r.start.value, r.inputs, served, sent); }
  }

  lemma AdvanceReached(limit: nat, start: nat, inputs: seq<Input>, served: seq<Served>, sent: Served)
    requires var cursor := Run(limit, Fresh(start), inputs).cursor;
             Reached(cursor, served) && sent.cursor == cursor.position
    ensures var more := inputs + [Advancing(sent.page.nextAfterPosition)];
            Reached(Run(limit, Fresh(start), more).cursor, served + [sent])
  {
    var more, next := inputs + [Advancing(sent.page.nextAfterPosition)], sent.page.nextAfterPosition;
    MoreInputs(limit, start, inputs, more);
    RunOneMore(limit, Fresh(start), inputs, Advancing(next));
    CursorSafety(limit, start, inputs);
    if !Run(limit, Fresh(start), inputs).cursor.overflowed {
      AdvanceArrives(limit, Run(limit, Fresh(start), inputs).cursor, next);
    }
  }

  lemma AdvanceArrives(limit: nat, cursor: Cursor, next: nat)
    requires Valid(limit, cursor) && !cursor.overflowed
    ensures Call(limit, cursor, Advancing(next)).cursor.position >= next
  {
    CallSafe(limit, cursor, Advancing(next));
    if next > cursor.position {
      var kept := map key | key in cursor.pending && key > next :: cursor.pending[key];
      FlushDelivers(next, kept);
    }
  }

  /** The first page ends at or below the head it is subscribed at. */
  lemma FirstPageReached(limit: nat, store: Log.Store, request: Request, inputs: seq<Input>)
    requires Log.Inv(store) && request.limit >= 1
    ensures Reached(Run(limit, Fresh(store.head), inputs).cursor, [Serve(store, request, store.head)])
  {
    PageWithinHead(store, request, store.head);
    CursorSafety(limit, store.head, inputs);
  }

  lemma SubscribeReached(limit: nat, j: Joint, other: nat, request: Request, id: nat)
    requires Enabled(j, Subscribe(other, request)) && Registered(j, id)
    requires RegistrationReached(limit, j.world.fanout.registrations[id], ServedTo(j, id))
    requires var r := j.world.fanout.registrations[id];
             var store := StoreAt(j, r.room);
             Reached(Run(limit, Fresh(store.head), r.inputs).cursor, [Serve(store, request, store.head)])
    ensures var k := Apply(limit, j, Subscribe(other, request));
            Registered(k, id) && RegistrationReached(limit, k.world.fanout.registrations[id], ServedTo(k, id))
  {
  }

  lemma ReachedStep(limit: nat, j: Joint, step: Step, id: nat)
    requires Enabled(j, step) && Registered(j, id) && Live.Seamless(limit, j.world.fanout.registrations[id])
    requires Log.Inv(StoreAt(j, j.world.fanout.registrations[id].room))
    requires RegistrationReached(limit, j.world.fanout.registrations[id], ServedTo(j, id))
    ensures var k := Apply(limit, j, step);
            Registered(k, id) && RegistrationReached(limit, k.world.fanout.registrations[id], ServedTo(k, id))
  {
    match step {
      case LiveStep(live) => LiveStepReached(limit, j.world, live, id, ServedTo(j, id));
      case Subscribe(other, request) =>
        var r := j.world.fanout.registrations[id];
        FirstPageReached(limit, StoreAt(j, r.room), request, r.inputs);
        SubscribeReached(limit, j, other, request, id);
      case Answer(other) =>
        if other == id { AnswerReached(limit, j, id); }
      case _ =>
    }
  }

  lemma ReachStep(limit: nat, j: Joint, step: Step)
    requires Inv(limit, j) && ReachInv(limit, j) && Enabled(j, step)
    ensures ReachInv(limit, Apply(limit, j, step))
  {
    var k := Apply(limit, j, step);
    forall id <- k.world.fanout.registrations
      ensures RegistrationReached(limit, k.world.fanout.registrations[id], ServedTo(k, id))
    {
      if Registered(j, id) {
        assert Live.RegistrationSound(limit, j.world.logs, j.world.published, j.world.fanout.registrations[id]);
        assert Log.Inv(StoreAt(j, j.world.fanout.registrations[id].room));
        ReachedStep(limit, j, step, id);
      } else if step.LiveStep? {
        NewIsUnread(limit, j.world, step.live, id);
      }
    }
  }

  // ---------------------------------------------------------------------------------------------
  // Pages tell the truth about the log
  // ---------------------------------------------------------------------------------------------

  /** The page's snapshot holds events of this log. */
  ghost predicate TrueTo(s: Served, log: seq<ChatMessage>) {
    s.snapshot.head <= |log| && forall p <- s.snapshot.rows :: 1 <= p <= |log| && s.snapshot.rows[p] == log[p - 1]
  }

  ghost predicate AllTrue(served: seq<Served>, log: seq<ChatMessage>) {
    forall k | 0 <= k < |served| :: TrueTo(served[k], log)
  }

  ghost predicate PagesTrue(j: Joint, id: nat)
    requires Registered(j, id)
  {
    AllTrue(ServedTo(j, id), LogOf(j, id)) && (id in j.asked ==> TrueTo(j.asked[id], LogOf(j, id)))
  }

  ghost predicate TruthInv(j: Joint) {
    PagesOwned(j) && forall id <- j.world.fanout.registrations :: PagesTrue(j, id)
  }

  lemma ServeIsTrue(store: Log.Store, request: Request, cursor: nat)
    requires Log.Inv(store)
    ensures TrueTo(Serve(store, request, cursor), store.committed)
  {
  }

  lemma TrueStays(served: seq<Served>, log: seq<ChatMessage>, more: seq<ChatMessage>)
    requires AllTrue(served, log) && log <= more
    ensures AllTrue(served, more)
  {
  }

  lemma LogStays(limit: nat, j: Joint, step: Step, id: nat)
    requires Inv(limit, j) && Enabled(j, step) && Registered(j, id)
    ensures Registered(Apply(limit, j, step), id) && LogOf(j, id) <= LogOf(Apply(limit, j, step), id)
  {
    RoomStays(limit, j, step, id);
    var room := j.world.fanout.registrations[id].room;
    assert Log.Inv(StoreAt(j, room));
    StoreGrows(limit, j, step, room);
  }

  /** The pages a step leaves with a socket: the old ones, one new one from its store, or one sent. */
  lemma PagesAfter(limit: nat, j: Joint, step: Step, id: nat)
    requires Enabled(j, step) && Registered(j, id) && Log.Inv(StoreAt(j, j.world.fanout.registrations[id].room))
    requires PagesTrue(j, id)
    ensures var k := Apply(limit, j, step);
            AllTrue(ServedTo(k, id), LogOf(j, id)) && (id in k.asked ==> TrueTo(k.asked[id], LogOf(j, id)))
  {
    match step {
      case Subscribe(other, request) => PagesAfterSubscribe(limit, j, other, request, id);
      case Ask(other, request) => PagesAfterAsk(limit, j, other, request, id);
      case Answer(other) => PagesAfterAnswer(limit, j, other, id);
      case _ =>
    }
  }

  lemma PagesAfterSubscribe(limit: nat, j: Joint, other: nat, request: Request, id: nat)
    requires Enabled(j, Subscribe(other, request)) && Registered(j, id) && PagesTrue(j, id)
    requires Log.Inv(StoreAt(j, j.world.fanout.registrations[id].room))
    ensures AllTrue(ServedTo(Apply(limit, j, Subscribe(other, request)), id), LogOf(j, id))
  {
    var store := StoreAt(j, j.world.fanout.registrations[id].room);
    ServeIsTrue(store, request, store.head);
    assert AllTrue([Serve(store, request, store.head)], LogOf(j, id));
  }

  lemma PagesAfterAsk(limit: nat, j: Joint, other: nat, request: Request, id: nat)
    requires Enabled(j, Ask(other, request)) && Registered(j, id) && PagesTrue(j, id)
    requires Log.Inv(StoreAt(j, j.world.fanout.registrations[id].room))
    ensures var k := Apply(limit, j, Ask(other, request)); id in k.asked ==> TrueTo(k.asked[id], LogOf(j, id))
  {
    ServeIsTrue(StoreAt(j, j.world.fanout.registrations[id].room), request, 0);
  }

  lemma PagesAfterAnswer(limit: nat, j: Joint, other: nat, id: nat)
    requires Enabled(j, Answer(other)) && Registered(j, id) && PagesTrue(j, id)
    ensures AllTrue(ServedTo(Apply(limit, j, Answer(other)), id), LogOf(j, id))
  {
  }

  lemma TruthOf(limit: nat, j: Joint, step: Step, id: nat)
    requires Inv(limit, j) && Enabled(j, step) && Registered(j, id) && PagesTrue(j, id)
    ensures Registered(Apply(limit, j, step), id) && PagesTrue(Apply(limit, j, step), id)
  {
    var k := Apply(limit, j, step);
    assert Log.Inv(StoreAt(j, j.world.fanout.registrations[id].room));
    PagesAfter(limit, j, step, id);
    LogStays(limit, j, step, id);
    TrueStays(ServedTo(k, id), LogOf(j, id), LogOf(k, id));
    if id in k.asked { OneTrueStays(k.asked[id], LogOf(j, id), LogOf(k, id)); }
  }

  lemma OneTrueStays(s: Served, log: seq<ChatMessage>, more: seq<ChatMessage>)
    requires TrueTo(s, log) && log <= more
    ensures TrueTo(s, more)
  {
  }

  /** Only registered sockets have pages. */
  ghost predicate PagesOwned(j: Joint) {
    && (forall id <- j.served :: Registered(j, id))
    && (forall id <- j.asked :: Registered(j, id))
  }

  lemma OwnedStep(limit: nat, j: Joint, step: Step)
    requires PagesOwned(j) && Enabled(j, step)
    ensures PagesOwned(Apply(limit, j, step))
  {
    var k := Apply(limit, j, step);
    forall id | id in k.served || id in k.asked ensures Registered(k, id) {
      assert Registered(j, id);
      RoomStays(limit, j, step, id);
    }
  }

  lemma TruthStep(limit: nat, j: Joint, step: Step)
    requires Inv(limit, j) && TruthInv(j) && Enabled(j, step)
    ensures TruthInv(Apply(limit, j, step))
  {
    var k := Apply(limit, j, step);
    OwnedStep(limit, j, step);
    forall id <- k.world.fanout.registrations ensures PagesTrue(k, id) {
      if Registered(j, id) {
        TruthOf(limit, j, step, id);
      } else {
        NewHasNoPages(limit, j, step, id);
      }
    }
  }

  lemma NewHasNoPages(limit: nat, j: Joint, step: Step, id: nat)
    requires PagesOwned(j) && Enabled(j, step) && !Registered(j, id)
    ensures var k := Apply(limit, j, step); ServedTo(k, id) == [] && id !in k.asked
  {
  }

  lemma InvariantsHold(limit: nat, states: seq<Joint>, i: nat)
    requires IsJointRun(limit, states) && i < |states|
    ensures Inv(limit, states[i]) && ReachInv(limit, states[i]) && TruthInv(states[i])
  {
    var inv := (j: Joint) => Inv(limit, j) && ReachInv(limit, j) && TruthInv(j);
    var next := (j: Joint, k: Joint) => Next(limit, j, k);
    forall j, k | inv(j) && next(j, k) ensures inv(k) {
      var step :| Enabled(j, step) && k == Apply(limit, j, step);
      StepKeepsInv(limit, j, step);
      ReachStep(limit, j, step);
      TruthStep(limit, j, step);
    }
    InitialIsSound(limit);
    assert inv(states[0]);
    Invariance(inv, next, states);
    assert inv(states[i]);
  }

  // ---------------------------------------------------------------------------------------------
  // Following the pages of one socket
  // ---------------------------------------------------------------------------------------------

  /** Page `k` says that there is more, and the next page is what follows it, for the same reader. */
  ghost predicate Follows(served: seq<Served>, k: int) {
    && 0 <= k && k + 1 < |served|
    && served[k].page.hasMore
    && served[k + 1].request.reader == served[k].request.reader
    && served[k + 1].request.after == served[k].page.nextAfterPosition
  }

  /** Pages `a` to `b` follow each other's next cursor until there is no more. */
  ghost predicate Chain(served: seq<Served>, a: nat, b: nat) {
    a <= b < |served| && !served[b].page.hasMore && forall k | a <= k < b :: Follows(served, k)
  }

  /** In a chain each page begins where the one before it ended. */
  lemma ChainLinks(served: seq<Served>, k: nat)
    requires AllSound(served) && Follows(served, k)
    ensures From(served[k + 1]) == served[k].page.nextAfterPosition && From(served[k]) < served[k].page.nextAfterPosition
  {
    var s := served[k];
    assert PageSound(s);
    History.PageIsExact(s.request.reader, s.snapshot, s.request.after, s.request.limit);
  }

  ghost predicate CoveredWithin(served: seq<Served>, a: nat, b: nat, p: nat)
    requires b < |served|
  {
    exists k :: a <= k <= b && Covers(served[k], p)
  }

  /** So together its pages cover everything from its beginning to its end. */
  lemma {:induction false} ChainCovers(served: seq<Served>, a: nat, b: nat, p: nat)
    requires AllSound(served) && Chain(served, a, b)
    requires From(served[a]) < p <= served[b].page.nextAfterPosition
    ensures CoveredWithin(served, a, b, p)
    decreases b - a
  {
    if p <= served[a].page.nextAfterPosition {
      assert PageSound(served[a]);
      if Readable(served[a], p) { PageHolds(served[a], p); }
      assert Covers(served[a], p);
    } else {
      ChainLinks(served, a);
      ChainCovers(served, a + 1, b, p);
      var k :| a + 1 <= k <= b && Covers(served[k], p);
      assert CoveredWithin(served, a, b, p);
    }
  }

  /** A chain that does not begin ahead of the socket never gets ahead of it. */
  lemma ChainStaysBehind(cursor: Cursor, served: seq<Served>, a: nat, b: nat, k: nat)
    requires AllSound(served) && Chain(served, a, b) && a <= k <= b
    requires Reached(cursor, served) && !cursor.overflowed && From(served[a]) <= served[a].cursor
    ensures From(served[k]) <= served[k].cursor
  {
    if k > a {
      var previous := k - 1;
      assert Follows(served, previous);
      LinkStaysBehind(cursor, served, previous, k);
    }
  }

  lemma LinkStaysBehind(cursor: Cursor, served: seq<Served>, previous: nat, k: nat)
    requires AllSound(served) && k == previous + 1 && k < |served| && Follows(served, previous)
    requires Reached(cursor, served) && !cursor.overflowed
    ensures From(served[k]) <= served[k].cursor
  {
    ChainLinks(served, previous);
    assert served[previous].page.nextAfterPosition <= served[k].cursor;
  }

  /** What a socket has when a chain of its pages ends. */
  ghost predicate Arrived(cursor: Cursor, served: seq<Served>, a: nat, b: nat)
    requires a <= b < |served|
  {
    && served[b].page.nextAfterPosition == served[b].snapshot.head <= cursor.position
    && (forall p {:trigger CoveredWithin(served, a, b, p)} | From(served[a]) < p <= served[b].snapshot.head ::
          CoveredWithin(served, a, b, p))
    && (forall k | a <= k <= b :: From(served[k]) <= served[k].cursor)
  }

  lemma ChainArrives(cursor: Cursor, served: seq<Served>, a: nat, b: nat)
    requires AllSound(served) && Chain(served, a, b) && Reached(cursor, served) && !cursor.overflowed
    requires From(served[a]) <= served[a].cursor
    ensures Arrived(cursor, served, a, b)
  {
    assert PageSound(served[b]);
    forall p {:trigger CoveredWithin(served, a, b, p)} | From(served[a]) < p <= served[b].snapshot.head
      ensures CoveredWithin(served, a, b, p)
    {
      ChainCovers(served, a, b, p);
    }
    forall k | a <= k <= b ensures From(served[k]) <= served[k].cursor {
      ChainStaysBehind(cursor, served, a, b, k);
    }
  }

  /** Answers that follow the next cursor, from a request not ahead of the socket until there is no more,
      bring the socket to the watermark of the last page or past it, and the pages hold every readable
      event from where they begin to there; none of them was ahead of the socket. */
  lemma FollowedPagesArrive(limit: nat, states: seq<Joint>, i: nat, id: nat, a: nat, b: nat)
    requires IsJointRun(limit, states) && i < |states| && Delivering(states[i], id)
    requires Chain(ServedTo(states[i], id), a, b)
    requires From(ServedTo(states[i], id)[a]) <= ServedTo(states[i], id)[a].cursor
    ensures Arrived(states[i].world.fanout.registrations[id].listener.cursor.value, ServedTo(states[i], id), a, b)
  {
    SocketReached(limit, states, i, id);
    ChainArrives(states[i].world.fanout.registrations[id].listener.cursor.value, ServedTo(states[i], id), a, b);
  }

  lemma SocketReached(limit: nat, states: seq<Joint>, i: nat, id: nat)
    requires IsJointRun(limit, states) && i < |states| && Delivering(states[i], id)
    ensures Reached(states[i].world.fanout.registrations[id].listener.cursor.value, ServedTo(states[i], id))
    ensures AllSound(ServedTo(states[i], id))
  {
    var r := states[i].world.fanout.registrations[id];
    PagesAreSound(limit, states, i);
    InvariantsHold(limit, states, i);
    assert RegistrationReached(limit, r, ServedTo(states[i], id));
    assert Live.RegistrationSound(limit, states[i].world.logs, states[i].world.published, r);
  }

  /** Catching up on one socket: at the end of such a chain every event from the socket's start to the last
      page's watermark was delivered live or lies in a page that was sent. */
  lemma CaughtUpSocket(limit: nat, states: seq<Joint>, i: nat, id: nat, a: nat, b: nat, p: nat)
    requires IsJointRun(limit, states) && i < |states| && Delivering(states[i], id)
    requires Chain(ServedTo(states[i], id), a, b) && NeverAhead(ServedTo(states[i], id))
    requires From(ServedTo(states[i], id)[a]) <= ServedTo(states[i], id)[a].cursor
    requires states[i].world.fanout.registrations[id].start.value < p <= ServedTo(states[i], id)[b].snapshot.head
    ensures 1 <= p <= |LogOf(states[i], id)|
    ensures || LogOf(states[i], id)[p - 1] in DeliveredMessages(states[i].world.fanout.registrations[id].listener.trace)
            || CoveredIn(ServedTo(states[i], id), p)
  {
    FollowedPagesArrive(limit, states, i, id, a, b);
    NothingIsMissed(limit, states, i, id, p);
  }

  /** Exactly which events came twice: the event at `p` was delivered live and is in page `k` if and only if
      it lies between the socket's start and its cursor, no advance skipped it, and it is a readable
      event of the page's range. */
  lemma InBothExactly(limit: nat, states: seq<Joint>, i: nat, id: nat, k: nat, p: nat)
    requires IsJointRun(limit, states) && i < |states| && Delivering(states[i], id)
    requires k < |ServedTo(states[i], id)| && 1 <= p <= |LogOf(states[i], id)|
    ensures var r, event := states[i].world.fanout.registrations[id], LogOf(states[i], id)[p - 1];
            var s := ServedTo(states[i], id)[k];
            event in DeliveredMessages(r.listener.trace) && event in s.page.messages
            <==> (&& r.start.value < p <= r.listener.cursor.value.position
                  && p !in Skips(limit, r.start.value, r.inputs)
                  && From(s) < p <= s.page.nextAfterPosition && Readable(s, p))
  {
    var r, log := states[i].world.fanout.registrations[id], LogOf(states[i], id);
    var s := ServedTo(states[i], id)[k];
    DeliveryIsExact(limit, states, i, id);
    PagesAreSound(limit, states, i);
    InvariantsHold(limit, states, i);
    assert PageSound(s);
    assert PagesTrue(states[i], id) && TrueTo(s, log);
    DeliveredExactly(Live.LogMap(log), log, r.start.value, r.listener.cursor.value.position,
                     Skips(limit, r.start.value, r.inputs), p);
    PagedExactly(s, log, p);
  }

  lemma DeliveredExactly(map': map<nat, ChatMessage>, log: seq<ChatMessage>, low: nat, high: nat, skipped: set<nat>, p: nat)
    requires map' == Live.LogMap(log) && IsLog(map') && 1 <= p <= |log|
    ensures log[p - 1] in Picked(map', low, high, skipped) <==> low < p <= high && p !in skipped
  {
    PickedIsExact(map', low, high, skipped);
    assert map'[p] == log[p - 1] && log[p - 1].position == p;
    var picked := Picked(map', low, high, skipped);
    if log[p - 1] in picked {
      var n :| 0 <= n < |picked| && picked[n] == log[p - 1];
      assert IsPick(map', low, high, skipped, picked[n]);
    }
  }

  lemma PagedExactly(s: Served, log: seq<ChatMessage>, p: nat)
    requires PageSound(s) && TrueTo(s, log) && 1 <= p <= |log| && log[p - 1].position == p
    ensures log[p - 1] in s.page.messages <==> From(s) < p <= s.page.nextAfterPosition && Readable(s, p)
  {
    History.PageIsExact(s.request.reader, s.snapshot, s.request.after, s.request.limit);
    History.MatchingIsExact(s.request.reader, s.snapshot.rows, From(s), s.page.nextAfterPosition);
    if Readable(s, p) && p <= s.page.nextAfterPosition { PageHolds(s, p); }
  }
}
