/** What a socket gets, end to end: theorems about every run of the joint machine of transactions, outbox
    publications, lossy fan-out, watermark polls and pages. */
module EndToEnd {
  import opened ChatTypes
  import opened Runs
  import opened LiveCursor
  import opened CursorConfluence
  import opened JointStream
  import Log = ChatLog
  import Live = LiveDelivery
  import History

  // ---------------------------------------------------------------------------------------------
  // What happens to one registration
  // ---------------------------------------------------------------------------------------------

  /** `t` is `r` after it heard some notifications. */
  ghost predicate Heard(r: Live.Registration, t: Live.Registration) {
    && t.room == r.room && t.start == r.start && t.listener.active == r.listener.active
    && r.inputs <= t.inputs
    && forall k | |r.inputs| <= k < |t.inputs| :: t.inputs[k].Accepting?
  }

  lemma HeardIsTransitive(r: Live.Registration, s: Live.Registration, t: Live.Registration)
    requires Heard(r, s) && Heard(s, t)
    ensures Heard(r, t)
  {
    forall k | |r.inputs| <= k < |t.inputs| ensures t.inputs[k].Accepting? {
      if k < |s.inputs| { assert s.inputs[k] == t.inputs[k]; }
    }
  }

  lemma NotifyIsHeard(limit: nat, f: Live.Fanout, room: nat, note: Notification, id: nat)
    requires id in f.registrations
    ensures Heard(f.registrations[id], Live.NotifyRoom(limit, f, room, note).registrations[id])
  {
  }

  lemma {:induction false} PollIsHeard(limit: nat, f: Live.Fanout, heads: seq<(nat, nat)>, id: nat)
    requires id in f.registrations
    ensures var g := Live.ApplyPoll(limit, f, heads);
            id in g.registrations && Heard(f.registrations[id], g.registrations[id])
    decreases |heads|
  {
    if heads != [] {
      var init, last := heads[..|heads| - 1], heads[|heads| - 1];
      PollIsHeard(limit, f, init, id);
      var g := Live.ApplyPoll(limit, f, init);
      var observed := Live.ObserveHead(g, last.0, last.1);
      NotifyIsHeard(limit, observed, last.0, HighWatermark(last.1), id);
      var t := Live.PollOne(limit, g, last.0, last.1);
      assert Heard(g.registrations[id], t.registrations[id]);
      HeardIsTransitive(f.registrations[id], g.registrations[id], t.registrations[id]);
    }
  }

  /** A live step lets a listener hear something, creates or activates its cursor, or leaves it alone. */
  lemma LiveStepHeard(limit: nat, w: Live.World, live: Live.Step, id: nat)
    requires Live.Enabled(w, live) && id in w.fanout.registrations
    requires !live.ReadPage? && !live.AdvanceCursor?
    ensures id in Live.Apply(limit, w, live).fanout.registrations
    ensures var r, t := w.fanout.registrations[id], Live.Apply(limit, w, live).fanout.registrations[id];
            if live.ActivateCursor? && live.id == id then t == r.(listener := Live.Activate(limit, r.listener))
            else Heard(r, t)
  {
    match live {
      case ApplyHeads => PollIsHeard(limit, w.fanout, w.poll.value, id);
      case ReceiveMessage(room, message) =>
        NotifyIsHeard(limit, Live.ObserveHead(w.fanout, room, message.position), room, MessageNote(message), id);
      case _ =>
    }
  }

  // ---------------------------------------------------------------------------------------------
  // Where watermarks come from
  // ---------------------------------------------------------------------------------------------

  /** These heads are what the stores of this state say. */
  ghost predicate ReadFrom(j: Joint, heads: seq<(nat, nat)>) {
    forall k | 0 <= k < |heads| :: heads[k].1 == StoreAt(j, heads[k].0).head
  }

  lemma PollStep(limit: nat, j: Joint, step: Step)
    requires Enabled(j, step) && Apply(limit, j, step).world.poll.Some?
    ensures var poll := Apply(limit, j, step).world.poll;
            poll == j.world.poll || ReadFrom(j, poll.value)
  {
  }

  lemma {:induction false} PollWasRead(limit: nat, states: seq<Joint>, i: nat)
    requires IsJointRun(limit, states) && i < |states| && states[i].world.poll.Some?
    ensures var heads := states[i].world.poll.value; exists j: nat :: j < i && ReadFrom(states[j], heads)
    decreases i
  {
    var step := StepOfRun(limit, states, i - 1);
    PollStep(limit, states[i - 1], step);
    if !ReadFrom(states[i - 1], states[i].world.poll.value) { PollWasRead(limit, states, i - 1); }
  }

  lemma StartStep(limit: nat, j: Joint, step: Step, id: nat)
    requires Enabled(j, step) && Registered(Apply(limit, j, step), id)
    requires Apply(limit, j, step).world.fanout.registrations[id].start.Some?
    ensures var t := Apply(limit, j, step).world.fanout.registrations[id];
            || (Registered(j, id) && var r := j.world.fanout.registrations[id]; r.room == t.room && r.start == t.start)
            || t.start.value == StoreAt(j, t.room).head
  {
    if step.LiveStep? && Registered(j, id) { LiveStepHeard(limit, j.world, step.live, id); }
    if step.LiveStep? && !Registered(j, id) { NewIsUnread(limit, j.world, step.live, id); }
  }

  lemma NewIsUnread(limit: nat, w: Live.World, live: Live.Step, id: nat)
    requires Live.Enabled(w, live) && id !in w.fanout.registrations
    requires id in Live.Apply(limit, w, live).fanout.registrations
    ensures Live.Apply(limit, w, live).fanout.registrations[id].start.None?
  {
    if live.ApplyHeads? { PollAddsNobody(limit, w.fanout, w.poll.value, id); }
  }

  lemma {:induction false} PollAddsNobody(limit: nat, f: Live.Fanout, heads: seq<(nat, nat)>, id: nat)
    requires id !in f.registrations
    ensures id !in Live.ApplyPoll(limit, f, heads).registrations
    decreases |heads|
  {
    if heads != [] { PollAddsNobody(limit, f, heads[..|heads| - 1], id); }
  }

  /** A cursor's start is the committed head of a state of the run. */
  lemma {:induction false} StartWasRead(limit: nat, states: seq<Joint>, i: nat, id: nat)
    requires IsJointRun(limit, states) && i < |states| && Registered(states[i], id)
    requires states[i].world.fanout.registrations[id].start.Some?
    ensures var r := states[i].world.fanout.registrations[id];
            exists j: nat :: j < i && r.start.value == StoreAt(states[j], r.room).head
    decreases i
  {
    var step := StepOfRun(limit, states, i - 1);
    StartStep(limit, states[i - 1], step, id);
    var r := states[i].world.fanout.registrations[id];
    if r.start.value != StoreAt(states[i - 1], r.room).head { StartWasRead(limit, states, i - 1, id); }
  }

  // ---------------------------------------------------------------------------------------------
  // Pages
  // ---------------------------------------------------------------------------------------------

  /** The page is what a query over its snapshot returns. */
  ghost predicate PageSound(s: Served) {
    && History.WellFormed(s.snapshot) && s.request.limit >= 1
    && s.page == History.ReadPage(s.request.reader, s.snapshot, s.request.after, s.request.limit)
  }

  predicate Readable(s: Served, p: nat) {
    History.Matches(s.request.reader, s.snapshot.rows, p)
  }

  /** Where the page begins. */
  function From(s: Served): nat {
    History.Effective(s.request.reader, s.request.after)
  }

  /** Sending the page moved the socket's cursor over `p`. */
  predicate Jumped(s: Served, p: nat) {
    s.cursor < p <= s.page.nextAfterPosition
  }

  /** The page holds the event at `p`, if there is one to be read. */
  ghost predicate Covers(s: Served, p: nat) {
    From(s) < p <= s.page.nextAfterPosition && (Readable(s, p) ==> s.snapshot.rows[p] in s.page.messages)
  }

  /** A page holds a readable event up to its next cursor exactly when the event is above where it begins. */
  lemma PageHolds(s: Served, p: nat)
    requires PageSound(s) && Readable(s, p) && p <= s.page.nextAfterPosition
    ensures s.snapshot.rows[p] in s.page.messages <==> From(s) < p
  {
    History.PageIsExact(s.request.reader, s.snapshot, s.request.after, s.request.limit);
    History.MatchingIsExact(s.request.reader, s.snapshot.rows, From(s), s.page.nextAfterPosition);
  }

  /** What an advance skips is in the page that caused it if and only if nothing readable lies between the
      socket's cursor and the beginning of the page. */
  lemma SkipIsSentExactly(s: Served)
    requires PageSound(s)
    ensures (forall p | Jumped(s, p) && Readable(s, p) :: s.snapshot.rows[p] in s.page.messages)
            <==> (forall p | Jumped(s, p) && Readable(s, p) :: From(s) < p)
  {
    forall p | Jumped(s, p) && Readable(s, p) ensures s.snapshot.rows[p] in s.page.messages <==> From(s) < p {
      PageHolds(s, p);
    }
  }

  /** Where everything is readable: if and only if the client did not ask ahead of its socket. */
  lemma AskingAheadExactly(s: Served)
    requires PageSound(s) && s.page.nextAfterPosition > s.cursor
    requires forall p | Jumped(s, p) :: Readable(s, p)
    ensures (forall p | Jumped(s, p) :: Readable(s, p) && s.snapshot.rows[p] in s.page.messages) <==> From(s) <= s.cursor
  {
    SkipIsSentExactly(s);
    assert Jumped(s, s.cursor + 1) && Readable(s, s.cursor + 1);
  }

  ghost predicate JumpedIn(served: seq<Served>, p: nat) {
    exists k :: 0 <= k < |served| && Jumped(served[k], p)
  }

  /** Every position a listener skipped was skipped because a page was sent. */
  ghost predicate SkipsServed(limit: nat, start: nat, inputs: seq<Input>, served: seq<Served>) {
    forall p <- Skips(limit, start, inputs) :: JumpedIn(served, p)
  }

  ghost predicate RegistrationServed(limit: nat, r: Live.Registration, served: seq<Served>) {
    r.listener.active ==> r.start.Some? && SkipsServed(limit, r.start.value, r.inputs, served)
  }

  ghost predicate PagesSound(j: Joint) {
    && (forall id <- j.asked :: PageSound(j.asked[id]))
    && (forall id <- j.served :: AllSound(j.served[id]))
  }

  ghost predicate SkipInv(limit: nat, j: Joint) {
    forall id <- j.world.fanout.registrations ::
      RegistrationServed(limit, j.world.fanout.registrations[id], ServedTo(j, id))
  }

  lemma {:induction false} SkipsOfHeard(limit: nat, start: nat, first: seq<Input>, more: seq<Input>)
    requires first <= more && forall k | |first| <= k < |more| :: more[k].Accepting?
    ensures Skips(limit, start, more) == Skips(limit, start, first)
    decreases |more|
  {
    if |more| > |first| {
      SkipsOfHeard(limit, start, first, more[..|more| - 1]);
    } else {
      assert more == first;
    }
  }

  lemma HeardServed(limit: nat, r: Live.Registration, t: Live.Registration, served: seq<Served>)
    requires Heard(r, t) && RegistrationServed(limit, r, served)
    ensures RegistrationServed(limit, t, served)
  {
    if t.listener.active { SkipsOfHeard(limit, r.start.value, r.inputs, t.inputs); }
  }

  lemma ActivateServed(limit: nat, r: Live.Registration, served: seq<Served>)
    requires Live.Seamless(limit, r) && r.listener.cursor.Some? && RegistrationServed(limit, r, served)
    ensures RegistrationServed(limit, r.(listener := Live.Activate(limit, r.listener)), served)
  {
    if !r.listener.active && !r.listener.overflowed { NothingSkipped(limit, r.start.value, r.inputs); }
  }

  lemma LiveStepServed(limit: nat, w: Live.World, live: Live.Step, id: nat, served: seq<Served>)
    requires Live.Enabled(w, live) && !live.ReadPage? && !live.AdvanceCursor? && id in w.fanout.registrations
    requires Live.Seamless(limit, w.fanout.registrations[id])
    requires RegistrationServed(limit, w.fanout.registrations[id], served)
    ensures id in Live.Apply(limit, w, live).fanout.registrations
    ensures RegistrationServed(limit, Live.Apply(limit, w, live).fanout.registrations[id], served)
  {
    var r := w.fanout.registrations[id];
    LiveStepHeard(limit, w, live, id);
    if live.ActivateCursor? && live.id == id {
      ActivateServed(limit, r, served);
    } else {
      HeardServed(limit, r, Live.Apply(limit, w, live).fanout.registrations[id], served);
    }
  }

  lemma AnswerServed(limit: nat, j: Joint, id: nat)
    requires Enabled(j, Answer(id)) && Live.Seamless(limit, j.world.fanout.registrations[id])
    requires RegistrationServed(limit, j.world.fanout.registrations[id], ServedTo(j, id))
    ensures var k := Apply(limit, j, Answer(id));
            RegistrationServed(limit, k.world.fanout.registrations[id], ServedTo(k, id))
  {
    var r := j.world.fanout.registrations[id];
    if r.listener.active {
      var sent := j.asked[id].(cursor := r.listener.cursor.value.position);
      AdvanceServed(limit, r.start.value, r.inputs, ServedTo(j, id), sent);
    }
  }

  lemma AdvanceServed(limit: nat, start: nat, inputs: seq<Input>, served: seq<Served>, sent: Served)
    requires SkipsServed(limit, start, inputs, served)
    requires sent.cursor == Run(limit, Fresh(start), inputs).cursor.position
    ensures SkipsServed(limit, start, inputs + [Advancing(sent.page.nextAfterPosition)], served + [sent])
  {
    var more := inputs + [Advancing(sent.page.nextAfterPosition)];
    assert more[..|more| - 1] == inputs;
    forall p <- Skips(limit, start, more) ensures JumpedIn(served + [sent], p) {
      if p in Skips(limit, start, inputs) {
        var k :| 0 <= k < |served| && Jumped(served[k], p);
        assert (served + [sent])[k] == served[k];
      } else {
        assert (served + [sent])[|served|] == sent && Jumped(sent, p);
      }
    }
  }

  lemma SkipStep(limit: nat, j: Joint, step: Step)
    requires Inv(limit, j) && SkipInv(limit, j) && Enabled(j, step)
    ensures SkipInv(limit, Apply(limit, j, step))
  {
    var k := Apply(limit, j, step);
    forall id <- k.world.fanout.registrations
      ensures RegistrationServed(limit, k.world.fanout.registrations[id], ServedTo(k, id))
    {
      if Registered(j, id) {
        assert Live.RegistrationSound(limit, j.world.logs, j.world.published, j.world.fanout.registrations[id]);
        SkipStepOld(limit, j, step, id);
      } else if step.LiveStep? {
        NewIsInactive(limit, j.world, step.live, id);
      }
    }
  }

  lemma SkipStepOld(limit: nat, j: Joint, step: Step, id: nat)
    requires Registered(j, id) && Enabled(j, step) && Live.Seamless(limit, j.world.fanout.registrations[id])
    requires RegistrationServed(limit, j.world.fanout.registrations[id], ServedTo(j, id))
    ensures var k := Apply(limit, j, step);
            Registered(k, id) && RegistrationServed(limit, k.world.fanout.registrations[id], ServedTo(k, id))
  {
    match step {
      case LiveStep(live) => LiveStepServed(limit, j.world, live, id, ServedTo(j, id));
      case Answer(other) => if other == id { AnswerServed(limit, j, id); }
      case Subscribe(other, request) => SubscribeSkips(limit, j, other, request, id);
      case _ =>
    }
  }

  lemma SubscribeSkips(limit: nat, j: Joint, other: nat, request: Request, id: nat)
    requires Registered(j, id) && Enabled(j, Subscribe(other, request))
    requires RegistrationServed(limit, j.world.fanout.registrations[id], ServedTo(j, id))
    ensures var k := Apply(limit, j, Subscribe(other, request));
            Registered(k, id) && RegistrationServed(limit, k.world.fanout.registrations[id], ServedTo(k, id))
  {
  }

  lemma NewIsInactive(limit: nat, w: Live.World, live: Live.Step, id: nat)
    requires Live.Enabled(w, live) && id !in w.fanout.registrations
    requires id in Live.Apply(limit, w, live).fanout.registrations
    ensures !Live.Apply(limit, w, live).fanout.registrations[id].listener.active
  {
    if live.ApplyHeads? { PollAddsNobody(limit, w.fanout, w.poll.value, id); }
  }

  lemma ServeIsSound(store: Log.Store, request: Request, cursor: nat)
    requires Log.Inv(store) && request.limit >= 1
    ensures PageSound(Serve(store, request, cursor))
  {
    PageWithinHead(store, request, cursor);
  }

  lemma ServeAny(limit: nat, j: Joint, id: nat, request: Request, cursor: nat)
    requires Inv(limit, j) && Registered(j, id) && request.limit >= 1
    ensures PageSound(Serve(StoreAt(j, j.world.fanout.registrations[id].room), request, cursor))
  {
    var store := StoreAt(j, j.world.fanout.registrations[id].room);
    assert Log.Inv(store);
    ServeIsSound(store, request, cursor);
  }

  ghost predicate AllSound(pages: seq<Served>) {
    forall k | 0 <= k < |pages| :: PageSound(pages[k])
  }

  lemma PagesStep(limit: nat, j: Joint, step: Step)
    requires Inv(limit, j) && PagesSound(j) && Enabled(j, step)
    ensures PagesSound(Apply(limit, j, step))
  {
    match step {
      case Subscribe(id, request) =>
        ServeAny(limit, j, id, request, StoreAt(j, j.world.fanout.registrations[id].room).head);
        SubscribeServes(limit, j, id, request);
      case Ask(id, request) =>
        ServeAny(limit, j, id, request, 0);
        AskServes(limit, j, id, request);
      case Answer(id) => AnswerServes(limit, j, id);
      case _ =>
    }
  }

  lemma SubscribeServes(limit: nat, j: Joint, id: nat, request: Request)
    requires PagesSound(j) && Enabled(j, Subscribe(id, request))
    requires PageSound(FirstPage(j, id, request))
    ensures PagesSound(Apply(limit, j, Subscribe(id, request)))
  {
    assert AllSound([FirstPage(j, id, request)]);
  }

  lemma AskServes(limit: nat, j: Joint, id: nat, request: Request)
    requires PagesSound(j) && Enabled(j, Ask(id, request))
    requires PageSound(Serve(StoreAt(j, j.world.fanout.registrations[id].room), request, 0))
    ensures PagesSound(Apply(limit, j, Ask(id, request)))
  {
  }

  /** The page read on subscribing. */
  function FirstPage(j: Joint, id: nat, request: Request): Served
    requires Registered(j, id)
  {
    var store := StoreAt(j, j.world.fanout.registrations[id].room);
    Serve(store, request, store.head)
  }

  lemma AnswerServes(limit: nat, j: Joint, id: nat)
    requires PagesSound(j) && Enabled(j, Answer(id))
    ensures PagesSound(Apply(limit, j, Answer(id)))
  {
    assert PageSound(j.asked[id]);
    assert AllSound(ServedTo(j, id));
  }

  lemma PagesAreSound(limit: nat, states: seq<Joint>, i: nat)
    requires IsJointRun(limit, states) && i < |states|
    ensures Inv(limit, states[i]) && PagesSound(states[i]) && SkipInv(limit, states[i])
  {
    var inv := (j: Joint) => Inv(limit, j) && PagesSound(j) && SkipInv(limit, j);
    var next := (j: Joint, k: Joint) => Next(limit, j, k);
    forall j, k | inv(j) && next(j, k) ensures inv(k) {
      var step :| Enabled(j, step) && k == Apply(limit, j, step);
      StepKeepsInv(limit, j, step);
      PagesStep(limit, j, step);
      SkipStep(limit, j, step);
    }
    InitialIsSound(limit);
    assert inv(states[0]);
    Invariance(inv, next, states);
    assert inv(states[i]);
  }

  // ---------------------------------------------------------------------------------------------
  // Theorems over every joint run
  // ---------------------------------------------------------------------------------------------

  ghost function LogOf(j: Joint, id: nat): seq<ChatMessage>
    requires Registered(j, id)
  {
    StoreAt(j, j.world.fanout.registrations[id].room).committed
  }

  /** An activated socket that has not overflowed. */
  ghost predicate Delivering(j: Joint, id: nat) {
    && Registered(j, id)
    && var r := j.world.fanout.registrations[id];
       r.start.Some? && r.listener.active && r.listener.cursor.Some? && !r.listener.cursor.value.overflowed
  }

  /** No silent gap: the heads of a poll are committed heads of an earlier state, and once the poll is
      applied every active listener of the room stands at or past the head, was told of a gap reaching
      it, or has overflowed. */
  lemma NoSilentGap(limit: nat, states: seq<Joint>, i: nat, id: nat, k: nat)
    requires IsJointRun(limit, states) && i < |states| && states[i].world.poll.Some?
    requires k < |states[i].world.poll.value|
    requires Live.Watches(states[i].world.fanout, states[i].world.poll.value[k].0, id)
    ensures var (room, head) := states[i].world.poll.value[k];
            && (exists j: nat :: j < i && head == StoreAt(states[j], room).head)
            && var fanout := Live.Apply(limit, states[i].world, Live.ApplyHeads).fanout;
               && id in fanout.registrations
               && var listener := fanout.registrations[id].listener;
                  listener.active ==>
                    listener.cursor.Some? && Live.Reached(listener.cursor.value, listener.trace, head)
  {
    PollWasRead(limit, states, i);
    var heads := states[i].world.poll.value;
    var j: nat :| j < i && ReadFrom(states[j], heads);
    assert heads[k].1 == StoreAt(states[j], heads[k].0).head;
    LiveProjection(limit, states, i);
    var worlds :| LiveRunTo(limit, worlds, states[i].world);
    assert heads[k] in heads;
    Live.NoSilentGap(limit, worlds, |worlds| - 1, id, heads[k]);
  }

  /** The handover: an active socket is a cursor started at a committed head, fed everything since `watch`;
      every event the transactions committed is at or below that head or was not published before
      `watch`. */
  lemma HandoverIsSeamless(limit: nat, states: seq<Joint>, i: nat, id: nat)
    requires IsJointRun(limit, states) && i < |states| && Registered(states[i], id)
    requires states[i].world.fanout.registrations[id].listener.active
    ensures var r := states[i].world.fanout.registrations[id];
            && r.start.Some? && r.listener.cursor.Some?
            && Outcome(r.listener.cursor.value, r.listener.trace) == Run(limit, Fresh(r.start.value), r.inputs)
            && (exists j: nat :: j < i && r.start.value == StoreAt(states[j], r.room).head)
            && var published := Live.At(states[i].world.published, r.room);
               && r.registeredAt <= |published|
               && forall message <- LogOf(states[i], id) ::
                    message.position <= r.start.value || message !in published[..r.registeredAt]
  {
    LiveProjection(limit, states, i);
    var worlds :| LiveRunTo(limit, worlds, states[i].world);
    Live.HandoverIsSeamless(limit, worlds, |worlds| - 1, id);
    StartWasRead(limit, states, i, id);
  }

  /** What a delivering socket has delivered, in terms of the committed log. */
  lemma DeliveryIsExact(limit: nat, states: seq<Joint>, i: nat, id: nat)
    requires IsJointRun(limit, states) && i < |states| && Delivering(states[i], id)
    ensures var r, log := states[i].world.fanout.registrations[id], LogOf(states[i], id);
            var start, cursor, skipped := r.start.value, r.listener.cursor.value, Skips(limit, r.start.value, r.inputs);
            && start <= cursor.position <= |log|
            && IsLog(Live.LogMap(log))
            && Settled(Live.LogMap(log), start, Seen(r.inputs), skipped, cursor)
            && DeliveredMessages(r.listener.trace) == Picked(Live.LogMap(log), start, cursor.position, skipped)
  {
    LiveProjection(limit, states, i);
    var worlds :| LiveRunTo(limit, worlds, states[i].world);
    Live.DeliveryIsExact(limit, worlds, |worlds| - 1, id);
    var r := states[i].world.fanout.registrations[id];
    LogIsAligned(limit, states, i, r.room);
  }

  lemma LogIsAligned(limit: nat, states: seq<Joint>, i: nat, room: nat)
    requires IsJointRun(limit, states) && i < |states|
    ensures Live.At(states[i].world.logs, room) == StoreAt(states[i], room).committed
    ensures IsLog(Live.LogMap(StoreAt(states[i], room).committed))
  {
    StreamsAreAligned(limit, states);
    assert Inv(limit, states[i]);
    assert Log.Inv(StoreAt(states[i], room));
  }

  /** Nothing is missed: if no page was asked for ahead of the socket, every event between the socket's
      start and its cursor was delivered live or lies in a page that was sent, which holds it if the
      reader could read it. */
  lemma NothingIsMissed(limit: nat, states: seq<Joint>, i: nat, id: nat, p: nat)
    requires IsJointRun(limit, states) && i < |states| && Delivering(states[i], id)
    requires NeverAhead(ServedTo(states[i], id))
    requires var r := states[i].world.fanout.registrations[id]; r.start.value < p <= r.listener.cursor.value.position
    ensures 1 <= p <= |LogOf(states[i], id)|
    ensures || LogOf(states[i], id)[p - 1] in DeliveredMessages(states[i].world.fanout.registrations[id].listener.trace)
            || CoveredIn(ServedTo(states[i], id), p)
  {
    DeliveryIsExact(limit, states, i, id);
    PagesAreSound(limit, states, i);
    var r, log := states[i].world.fanout.registrations[id], LogOf(states[i], id);
    var start, position, skipped := r.start.value, r.listener.cursor.value.position, Skips(limit, r.start.value, r.inputs);
    var served := ServedTo(states[i], id);
    if p in skipped {
      assert RegistrationServed(limit, r, served);
      SkippedIsCovered(served, p);
    } else {
      PickedIsExact(Live.LogMap(log), start, position, skipped);
      assert Live.LogMap(log)[p] == log[p - 1];
    }
  }

  /** No page that moved the socket began beyond the socket's cursor. */
  ghost predicate NeverAhead(served: seq<Served>) {
    forall k | 0 <= k < |served| :: From(served[k]) <= served[k].cursor || served[k].page.nextAfterPosition <= served[k].cursor
  }

  ghost predicate CoveredIn(served: seq<Served>, p: nat) {
    exists k :: 0 <= k < |served| && Covers(served[k], p)
  }

  lemma SkippedIsCovered(served: seq<Served>, p: nat)
    requires AllSound(served) && NeverAhead(served) && JumpedIn(served, p)
    ensures CoveredIn(served, p)
  {
    var k :| 0 <= k < |served| && Jumped(served[k], p);
    if Readable(served[k], p) { PageHolds(served[k], p); }
    assert Covers(served[k], p);
  }

  // ---------------------------------------------------------------------------------------------
  // Catching up by pages, then listening
  // ---------------------------------------------------------------------------------------------

  /** Snapshots of a room at some moments of the run, rows past their time left out. */
  ghost function Snapshots(states: seq<Joint>, room: nat, times: seq<nat>, expired: seq<set<nat>>)
    : (snapshots: seq<History.Snapshot>)
    requires |times| == |expired| && forall n | 0 <= n < |times| :: times[n] < |states|
    ensures |snapshots| == |times|
    ensures forall n | 0 <= n < |times| :: snapshots[n] == History.SnapshotOf(StoreAt(states[times[n]], room), expired[n])
  {
    seq(|times|, n requires 0 <= n < |times| => History.SnapshotOf(StoreAt(states[times[n]], room), expired[n]))
  }

  ghost predicate InOrder(times: seq<nat>, expired: seq<set<nat>>) {
    && |times| == |expired|
    && (forall m, n | 0 <= m < n < |times| :: times[m] <= times[n])
    && (forall m, n | 0 <= m < n < |expired| :: expired[m] <= expired[n])
  }

  lemma SnapshotsAreOrdered(limit: nat, states: seq<Joint>, room: nat, times: seq<nat>, expired: seq<set<nat>>)
    requires IsJointRun(limit, states) && InOrder(times, expired)
    requires forall n | 0 <= n < |times| :: times[n] < |states|
    ensures History.Ordered(Snapshots(states, room, times, expired))
  {
    var snapshots := Snapshots(states, room, times, expired);
    forall n | 0 <= n < |snapshots| ensures History.WellFormed(snapshots[n]) {
      RoomSound(limit, states, times[n], room);
    }
    forall m, n | 0 <= m < n < |snapshots| ensures History.Later(snapshots[m], snapshots[n]) {
      StoresGrow(limit, states, times[m], times[n], room);
      Log.OldRowsStay(StoreAt(states[times[m]], room), StoreAt(states[times[n]], room));
    }
  }

  /** The messages above a position. */
  function Beyond(messages: seq<ChatMessage>, high: nat): seq<ChatMessage> {
    if messages == [] then []
    else
      var last := messages[|messages| - 1];
      Beyond(messages[..|messages| - 1], high) + if last.position > high then [last] else []
  }

  lemma {:induction false} BeyondPicked(log: map<nat, ChatMessage>, start: nat, position: nat, skipped: set<nat>, high: nat)
    requires IsLog(log) && start <= high && forall p <- skipped :: p <= high
    ensures Beyond(Picked(log, start, position, skipped), high) == Picked(log, high, position, {})
    decreases position
  {
    if position > start {
      BeyondPicked(log, start, position - 1, skipped, high);
      var before, picked := Picked(log, start, position - 1, skipped), Picked(log, start, position, skipped);
      if position in log && position !in skipped {
        assert picked[..|picked| - 1] == before && picked[|picked| - 1] == log[position];
      } else {
        assert picked == before;
      }
    }
  }

  function Max(a: nat, b: nat): nat { if a < b then b else a }

  /** The live half is exact: above the last page's watermark, a socket that skipped nothing beyond it has
      delivered exactly the committed log up to its cursor. */
  lemma LiveHalf(limit: nat, states: seq<Joint>, i: nat, id: nat, high: nat)
    requires IsJointRun(limit, states) && i < |states| && Delivering(states[i], id)
    requires var r := states[i].world.fanout.registrations[id];
             && r.start.value <= high <= |LogOf(states[i], id)|
             && forall p <- Skips(limit, r.start.value, r.inputs) :: p <= high
    ensures var r, log := states[i].world.fanout.registrations[id], LogOf(states[i], id);
            var position := Max(r.listener.cursor.value.position, high);
            position <= |log| && Beyond(DeliveredMessages(r.listener.trace), high) == log[high..position]
  {
    DeliveryIsExact(limit, states, i, id);
    var r, log := states[i].world.fanout.registrations[id], LogOf(states[i], id);
    var position := r.listener.cursor.value.position;
    BeyondPicked(Live.LogMap(log), r.start.value, position, Skips(limit, r.start.value, r.inputs), high);
    if position >= high { Live.RangeIsSlice(log, high, position); }
  }

  /** The client pages until there is no more, at some moments of the run up to state `i`, the last of them
      not before its socket's start; no later page has moved the socket beyond. */
  ghost predicate CaughtUp(limit: nat, states: seq<Joint>, i: nat, id: nat, reader: History.Reader, after: nat,
                           pageLimit: nat, times: seq<nat>, expired: seq<set<nat>>)
  {
    && IsJointRun(limit, states) && i < |states| && Delivering(states[i], id)
    && pageLimit >= 1 && InOrder(times, expired) && times != [] && (forall n | 0 <= n < |times| :: times[n] <= i)
    && var r := states[i].world.fanout.registrations[id];
       && var snapshots := Snapshots(states, r.room, times, expired);
          && History.Followed(reader, snapshots, after, pageLimit)
          && r.start.value <= snapshots[|snapshots| - 1].head
          && forall p <- Skips(limit, r.start.value, r.inputs) :: p <= snapshots[|snapshots| - 1].head
  }

  /** Catching up and then listening misses nothing, although the log grows and rows expire and are deleted
      meanwhile: the pages hold, once each and in order, everything still readable at the last page, and
      the deliveries above its watermark are exactly the committed log up to the socket's cursor. */
  lemma CatchUpPlusLive(limit: nat, states: seq<Joint>, i: nat, id: nat, reader: History.Reader, after: nat,
                        pageLimit: nat, times: seq<nat>, expired: seq<set<nat>>)
    requires CaughtUp(limit, states, i, id, reader, after, pageLimit, times, expired)
    ensures var r, log := states[i].world.fanout.registrations[id], LogOf(states[i], id);
            var snapshots := Snapshots(states, r.room, times, expired);
            var high := snapshots[|snapshots| - 1].head;
            && History.Complete(reader, snapshots, History.Effective(reader, after),
                                History.Collected(reader, snapshots, after, pageLimit))
            && high <= Max(r.listener.cursor.value.position, high) <= |log|
            && Beyond(DeliveredMessages(r.listener.trace), high) == log[high..Max(r.listener.cursor.value.position, high)]
  {
    var r := states[i].world.fanout.registrations[id];
    var snapshots := Snapshots(states, r.room, times, expired);
    SnapshotsAreOrdered(limit, states, r.room, times, expired);
    History.PagingIsComplete(reader, snapshots, after, pageLimit);
    StoresGrow(limit, states, times[|times| - 1], i, r.room);
    LiveHalf(limit, states, i, id, snapshots[|snapshots| - 1].head);
  }

  /** For a reader who may see everything, while nothing expires or is deleted, the pages followed by the
      deliveries above their watermark are the committed log itself. */
  lemma CatchUpPlusLiveIsTheLog(limit: nat, states: seq<Joint>, i: nat, id: nat, reader: History.Reader,
                                pageLimit: nat, times: seq<nat>, expired: seq<set<nat>>)
    requires CaughtUp(limit, states, i, id, reader, 0, pageLimit, times, expired)
    requires StoreAt(states[i], states[i].world.fanout.registrations[id].room).deleted == {}
    requires forall n | 0 <= n < |expired| :: expired[n] == {}
    requires reader.floor == 0 && forall message <- LogOf(states[i], id) :: History.Visible(reader, message)
    ensures var r, log := states[i].world.fanout.registrations[id], LogOf(states[i], id);
            var snapshots := Snapshots(states, r.room, times, expired);
            var high := snapshots[|snapshots| - 1].head;
            JoinToLog(History.Collected(reader, snapshots, 0, pageLimit), DeliveredMessages(r.listener.trace),
                      high, Max(r.listener.cursor.value.position, high), log)
  {
    CatchUpPlusLive(limit, states, i, id, reader, 0, pageLimit, times, expired);
    var r, log := states[i].world.fanout.registrations[id], LogOf(states[i], id);
    PagesAreThePrefix(limit, states, i, r.room, reader, pageLimit, times, expired);
    var snapshots := Snapshots(states, r.room, times, expired);
    var high := snapshots[|snapshots| - 1].head;
    PrefixJoins(log, high, Max(r.listener.cursor.value.position, high));
  }

  /** The pages and the live messages above `high` are together the log up to `position`. */
  ghost predicate JoinToLog(pages: seq<ChatMessage>, live: seq<ChatMessage>, high: nat, position: nat, log: seq<ChatMessage>) {
    position <= |log| && pages + Beyond(live, high) == log[..position]
  }

  lemma PrefixJoins(log: seq<ChatMessage>, high: nat, position: nat)
    requires high <= position <= |log|
    ensures log[..high] + log[high..position] == log[..position]
  {
  }

  ghost predicate IsPrefix(pages: seq<ChatMessage>, high: nat, log: seq<ChatMessage>) {
    high <= |log| && pages == log[..high]
  }

  /** Without expiry and deletion the pages of a reader who may see everything are the log up to the last
      page's watermark. */
  lemma PagesAreThePrefix(limit: nat, states: seq<Joint>, i: nat, room: nat, reader: History.Reader,
                          pageLimit: nat, times: seq<nat>, expired: seq<set<nat>>)
    requires IsJointRun(limit, states) && i < |states| && pageLimit >= 1 && InOrder(times, expired) && times != []
    requires (forall n | 0 <= n < |times| :: times[n] <= i) && forall n | 0 <= n < |expired| :: expired[n] == {}
    requires StoreAt(states[i], room).deleted == {}
    requires reader.floor == 0 && forall message <- StoreAt(states[i], room).committed :: History.Visible(reader, message)
    requires History.Followed(reader, Snapshots(states, room, times, expired), 0, pageLimit)
    ensures var snapshots, log := Snapshots(states, room, times, expired), StoreAt(states[i], room).committed;
            var high := snapshots[|snapshots| - 1].head;
            IsPrefix(History.Collected(reader, snapshots, 0, pageLimit), high, log)
  {
    SnapshotsAreOrdered(limit, states, room, times, expired);
    SnapshotsAreWhole(limit, states, i, room, times, expired);
    WholePagesArePrefix(reader, Snapshots(states, room, times, expired), pageLimit, StoreAt(states[i], room).committed);
  }

  /** Pages over snapshots that hold the whole log up to their heads. */
  lemma WholePagesArePrefix(reader: History.Reader, snapshots: seq<History.Snapshot>, pageLimit: nat, log: seq<ChatMessage>)
    requires pageLimit >= 1 && History.Ordered(snapshots) && History.Followed(reader, snapshots, 0, pageLimit)
    requires forall n | 0 <= n < |snapshots| :: WholeUpTo(snapshots[n], log)
    requires reader.floor == 0 && forall message <- log :: History.Visible(reader, message)
    ensures IsPrefix(History.Collected(reader, snapshots, 0, pageLimit), snapshots[|snapshots| - 1].head, log)
  {
    forall m, n | 0 <= m < n < |snapshots| ensures History.Kept(snapshots[m], snapshots[n]) {
      WholeIsKept(snapshots[m], snapshots[n], log);
    }
    History.PagingEqualsOneQuery(reader, snapshots, 0, pageLimit);
    var last := snapshots[|snapshots| - 1];
    assert WholeUpTo(last, log);
    AllVisibleIsThePrefix(reader, last.rows, log, last.head);
  }

  lemma SnapshotsAreWhole(limit: nat, states: seq<Joint>, i: nat, room: nat, times: seq<nat>, expired: seq<set<nat>>)
    requires IsJointRun(limit, states) && i < |states| && InOrder(times, expired)
    requires (forall n | 0 <= n < |times| :: times[n] <= i) && forall n | 0 <= n < |expired| :: expired[n] == {}
    requires StoreAt(states[i], room).deleted == {}
    ensures var snapshots := Snapshots(states, room, times, expired);
            forall n | 0 <= n < |snapshots| :: WholeUpTo(snapshots[n], StoreAt(states[i], room).committed)
  {
    var snapshots := Snapshots(states, room, times, expired);
    forall n | 0 <= n < |snapshots| ensures WholeUpTo(snapshots[n], StoreAt(states[i], room).committed) {
      WholeSnapshot(limit, states, times[n], i, room);
      assert snapshots[n].rows == StoreAt(states[times[n]], room).rows;
    }
  }

  lemma WholeIsKept(earlier: History.Snapshot, later: History.Snapshot, log: seq<ChatMessage>)
    requires WholeUpTo(earlier, log) && WholeUpTo(later, log) && History.Later(earlier, later)
    ensures History.Kept(earlier, later)
  {
  }

  /** The snapshot holds the whole log up to its head. */
  ghost predicate WholeUpTo(snapshot: History.Snapshot, log: seq<ChatMessage>) {
    && snapshot.head <= |log|
    && (forall p :: p in snapshot.rows <==> 1 <= p <= snapshot.head)
    && (forall p <- snapshot.rows :: 1 <= p <= |log| && snapshot.rows[p] == log[p - 1])
  }

  lemma WholeSnapshot(limit: nat, states: seq<Joint>, at: nat, i: nat, room: nat)
    requires IsJointRun(limit, states) && at <= i < |states| && StoreAt(states[i], room).deleted == {}
    ensures WholeUpTo(History.Snapshot(StoreAt(states[at], room).head, StoreAt(states[at], room).rows),
                      StoreAt(states[i], room).committed)
  {
    StoresGrow(limit, states, at, i, room);
    var s := StoreAt(states[at], room);
    assert s.deleted == {};
    forall p ensures p in s.rows <==> 1 <= p <= s.head { assert p in s.rows || p in s.deleted <==> 1 <= p <= |s.committed|; }
  }

  lemma {:induction false} AllVisibleIsThePrefix(reader: History.Reader, rows: map<nat, ChatMessage>,
                                                 log: seq<ChatMessage>, high: nat)
    requires high <= |log| && forall message <- log :: History.Visible(reader, message)
    requires forall p | 1 <= p <= high :: p in rows && rows[p] == log[p - 1]
    ensures History.Matching(reader, rows, 0, high) == log[..high]
    decreases high
  {
    if high > 0 {
      AllVisibleIsThePrefix(reader, rows, log, high - 1);
      assert log[high - 1] in log && rows[high] == log[high - 1];
      assert log[..high] == log[..high - 1] + [log[high - 1]];
    }
  }
}
