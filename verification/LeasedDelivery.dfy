/** The joint machine with the lease machine of the outbox: a commit writes its message and its leased
    delivery row together, and Redis gets an event only from an attempt that leased its row
    (src/modules/chat/postgres-chat.repository.ts:459-494, src/modules/outbox/outbox-relay.ts:39-82,
    src/modules/chat/manage-chat.use-case.ts:66-92). */
module LeasedDelivery {
  import opened ChatTypes
  import opened Runs
  import Ordering
  import LiveCursor
  import CursorConfluence
  import Log = ChatLog
  import Live = LiveDelivery
  import Joint = JointStream
  import Outbox

  /** `source` says which event a delivery row carries: a room and an index of its outbox. */
  datatype System = System(stream: Joint.Joint, outbox: Outbox.World, source: map<nat, (nat, nat)>)

  datatype Step =
    | Stream(joint: Joint.Step)
    | Store(room: nat, tx: nat, row: nat, leaseMs: nat, attempt: nat)
    | Relay(relay: Outbox.Step)
    | Publish(attempt: nat, heard: bool)

  function Initial(): System {
    System(Joint.Initial(), Outbox.Initial(), map[])
  }

  /** The outbox of the room a delivery row belongs to. */
  function RowsOf(s: System, row: nat): seq<Log.OutboxRow>
    requires row in s.source
  {
    Joint.StoreAt(s.stream, s.source[row].0).outbox
  }

  predicate Sourced(s: System, row: nat) {
    row in s.source && s.source[row].1 < |RowsOf(s, row)|
  }

  function EventOf(s: System, row: nat): ChatMessage
    requires Sourced(s, row)
  {
    RowsOf(s, row)[s.source[row].1].event
  }

  function RoomOf(s: System, row: nat): nat
    requires row in s.source
  {
    s.source[row].0
  }

  predicate Committing(store: Log.Store, log: Log.Step) {
    log.Commit? && log.tx in store.active && store.active[log.tx].phase.Ready?
  }

  function Insertion(s: System, step: Step): Outbox.Step
    requires step.Store? && Committing(Joint.StoreAt(s.stream, step.room), Log.Commit(step.tx))
  {
    Outbox.InsertLeased(step.row, 0, Joint.StoreAt(s.stream, step.room).active[step.tx].phase.owner,
                        step.leaseMs, step.attempt)
  }

  /** The step of the live path in a publication of this row. */
  function Publication(s: System, row: nat): Joint.Step
    requires Sourced(s, row)
  {
    Joint.LiveStep(Live.PublishMessage(RoomOf(s, row), EventOf(s, row)))
  }

  /** What the handler reports; a publication that reached Redis may still be reported as failed. */
  function Report(attempt: nat, heard: bool): Outbox.Step {
    if heard then Outbox.PublishSucceeds(attempt) else Outbox.PublishFails(attempt)
  }

  ghost predicate Enabled(s: System, step: Step) {
    match step
    case Stream(j) =>
      && Joint.Enabled(s.stream, j)
      && !(j.LiveStep? && j.live.PublishMessage?)
      && !(j.LogStep? && Committing(Joint.StoreAt(s.stream, j.room), j.log))
    case Store(room, tx, row, leaseMs, attempt) =>
      && Committing(Joint.StoreAt(s.stream, room), Log.Commit(tx))
      && Outbox.Enabled(s.outbox, Insertion(s, step)) && Outbox.Linked(s.outbox)
    case Relay(o) =>
      && Outbox.Enabled(s.outbox, o) && Outbox.Linked(s.outbox)
      && !o.InsertEvent? && !o.InsertLeased? && !o.PublishSucceeds?
    case Publish(attempt, heard) =>
      && Outbox.Enabled(s.outbox, Report(attempt, heard)) && Outbox.Linked(s.outbox)
      && Sourced(s, s.outbox.attempts[attempt].row)
      && Joint.Enabled(s.stream, Publication(s, s.outbox.attempts[attempt].row))
  }

  ghost function Apply(limit: nat, s: System, step: Step): System
    requires Enabled(s, step)
  {
    match step
    case Stream(j) => s.(stream := Joint.Apply(limit, s.stream, j))
    case Store(room, tx, row, leaseMs, attempt) =>
      System(Joint.Apply(limit, s.stream, Joint.LogStep(room, Log.Commit(tx))),
             Outbox.Apply(s.outbox, Insertion(s, step)),
             s.source[row := (room, |Joint.StoreAt(s.stream, room).outbox|)])
    case Relay(o) => s.(outbox := Outbox.Apply(s.outbox, o))
    case Publish(attempt, heard) =>
      s.(stream := Joint.Apply(limit, s.stream, Publication(s, s.outbox.attempts[attempt].row)),
         outbox := Outbox.Apply(s.outbox, Report(attempt, heard)))
  }

  ghost predicate Next(limit: nat, s: System, t: System) {
    exists step :: Enabled(s, step) && t == Apply(limit, s, step)
  }

  ghost predicate IsSystemRun(limit: nat, states: seq<System>) {
    IsRun((s: System, t: System) => Next(limit, s, t), states) && states[0] == Initial()
  }

  // ---------------------------------------------------------------------------------------------
  // The invariant
  // ---------------------------------------------------------------------------------------------

  /** Every delivery row carries a committed event, and what a handler delivered was published. */
  ghost predicate Linked(s: System) {
    && s.source.Keys == s.outbox.rows.Keys == s.outbox.past.Keys
    && (forall row <- s.source :: RowLinked(s, row))
  }

  ghost predicate RowLinked(s: System, row: nat)
    requires row in s.source && row in s.outbox.past
  {
    && Sourced(s, row)
    && (s.outbox.past[row].delivered ==> EventOf(s, row) in Live.At(s.stream.world.published, RoomOf(s, row)))
  }

  /** Every committed event has a delivery row. */
  ghost predicate Complete(s: System) {
    forall room: nat, i: nat | i < |Joint.StoreAt(s.stream, room).outbox| :: HasRow(s, room, i)
  }

  ghost predicate HasRow(s: System, room: nat, i: nat) {
    exists row :: row in s.source && s.source[row] == (room, i)
  }

  ghost predicate Inv(limit: nat, s: System) {
    Joint.Inv(limit, s.stream) && Outbox.Inv(s.outbox) && Linked(s) && Complete(s)
  }

  /** How a step of the joint machine changes outboxes and publications. */
  lemma StreamGrows(limit: nat, j: Joint.Joint, step: Joint.Step, room: nat)
    requires Joint.Inv(limit, j) && Joint.Enabled(j, step)
    ensures var k := Joint.Apply(limit, j, step);
            && Joint.StoreAt(j, room).outbox <= Joint.StoreAt(k, room).outbox
            && Live.At(j.world.published, room) <= Live.At(k.world.published, room)
  {
    assert Log.Inv(Joint.StoreAt(j, room));
    Joint.StoreGrows(limit, j, step, room);
    PublishedGrows(limit, j, step, room);
  }

  lemma PublishedGrows(limit: nat, j: Joint.Joint, step: Joint.Step, room: nat)
    requires Joint.Enabled(j, step)
    ensures Live.At(j.world.published, room) <= Live.At(Joint.Apply(limit, j, step).world.published, room)
  {
  }

  /** A step that commits nothing leaves every outbox as it was. */
  lemma OutboxesStay(limit: nat, j: Joint.Joint, step: Joint.Step, room: nat)
    requires Joint.Enabled(j, step)
    requires !(step.LogStep? && Committing(Joint.StoreAt(j, step.room), step.log))
    ensures Joint.StoreAt(Joint.Apply(limit, j, step), room).outbox == Joint.StoreAt(j, room).outbox
  {
    Joint.StoreAfter(limit, j, step, room);
  }

  lemma CommitAddsRow(limit: nat, j: Joint.Joint, room: nat, tx: nat, other: nat)
    requires Committing(Joint.StoreAt(j, room), Log.Commit(tx)) && Joint.Enabled(j, Joint.LogStep(room, Log.Commit(tx)))
    ensures var before, after := Joint.StoreAt(j, other).outbox,
                                 Joint.StoreAt(Joint.Apply(limit, j, Joint.LogStep(room, Log.Commit(tx))), other).outbox;
            if other == room then |after| == |before| + 1 && before <= after else after == before
  {
    Joint.StoreAfter(limit, j, Joint.LogStep(room, Log.Commit(tx)), other);
  }

  /** Outboxes and publications only grew from `j` to `k`. */
  ghost predicate Grown(j: Joint.Joint, k: Joint.Joint) {
    forall room: nat ::
      && Joint.StoreAt(j, room).outbox <= Joint.StoreAt(k, room).outbox
      && Live.At(j.world.published, room) <= Live.At(k.world.published, room)
  }

  lemma StreamsGrow(limit: nat, j: Joint.Joint, step: Joint.Step)
    requires Joint.Inv(limit, j) && Joint.Enabled(j, step)
    ensures Grown(j, Joint.Apply(limit, j, step))
  {
    forall room: nat
      ensures Joint.StoreAt(j, room).outbox <= Joint.StoreAt(Joint.Apply(limit, j, step), room).outbox
      ensures Live.At(j.world.published, room) <= Live.At(Joint.Apply(limit, j, step).world.published, room)
    {
      StreamGrows(limit, j, step, room);
    }
  }

  /** Rows stay linked when outboxes and publications grow, apart from one that is looked at on its own. */
  lemma StaysLinked(s: System, t: System, own: set<nat>)
    requires Linked(s) && Grown(s.stream, t.stream)
    requires t.source.Keys == t.outbox.rows.Keys == t.outbox.past.Keys
    requires forall row <- t.source | row !in own :: SameRow(s, t, row)
    requires forall row <- own :: row in t.source && row in t.outbox.past && RowLinked(t, row)
    ensures Linked(t)
  {
    forall row <- t.source | row !in own ensures RowLinked(t, row) {
      assert SameRow(s, t, row) && RowLinked(s, row);
      assert RowsOf(s, row) <= RowsOf(t, row);
    }
  }

  predicate SameRow(s: System, t: System, row: nat) {
    && row in s.source && row in t.source && t.source[row] == s.source[row]
    && row in s.outbox.past && row in t.outbox.past
    && t.outbox.past[row].delivered == s.outbox.past[row].delivered
  }

  lemma StreamLinks(s: System, k: Joint.Joint)
    requires Linked(s) && Grown(s.stream, k)
    ensures Linked(s.(stream := k))
  {
    StaysLinked(s, s.(stream := k), {});
  }

  lemma StreamKeepsInv(limit: nat, s: System, j: Joint.Step)
    requires Inv(limit, s) && Enabled(s, Stream(j))
    ensures Inv(limit, Apply(limit, s, Stream(j)))
  {
    Joint.StepKeepsInv(limit, s.stream, j);
    StreamsGrow(limit, s.stream, j);
    StreamLinks(s, Joint.Apply(limit, s.stream, j));
    StreamCompletes(limit, s, j);
  }

  lemma StreamCompletes(limit: nat, s: System, j: Joint.Step)
    requires Complete(s) && Enabled(s, Stream(j))
    ensures Complete(Apply(limit, s, Stream(j)))
  {
    var t := Apply(limit, s, Stream(j));
    forall room: nat, i: nat | i < |Joint.StoreAt(t.stream, room).outbox| ensures HasRow(t, room, i) {
      OutboxesStay(limit, s.stream, j, room);
      assert HasRow(s, room, i);
    }
  }

  lemma RelayKeepsInv(limit: nat, s: System, o: Outbox.Step)
    requires Inv(limit, s) && Enabled(s, Relay(o))
    ensures Inv(limit, Apply(limit, s, Relay(o)))
  {
    var t := Apply(limit, s, Relay(o));
    Outbox.StepKeepsInv(s.outbox, o);
    RelayKeepsRows(s.outbox, o);
    forall row <- t.source ensures RowLinked(t, row) {
      assert RowLinked(s, row);
    }
    forall room: nat, i: nat | i < |Joint.StoreAt(t.stream, room).outbox| ensures HasRow(t, room, i) {
      assert HasRow(s, room, i);
    }
  }

  lemma RelayKeepsRows(w: Outbox.World, o: Outbox.Step)
    requires Outbox.Enabled(w, o) && Outbox.Linked(w) && !o.InsertEvent? && !o.InsertLeased? && !o.PublishSucceeds?
    ensures var v := Outbox.Apply(w, o);
            && v.rows.Keys == w.rows.Keys && v.past.Keys == w.past.Keys
            && forall row <- w.past :: v.past[row].delivered == w.past[row].delivered
  {
  }

  lemma ReportKeepsRows(w: Outbox.World, attempt: nat, heard: bool)
    requires Outbox.Enabled(w, Report(attempt, heard)) && Outbox.Linked(w)
    ensures var v := Outbox.Apply(w, Report(attempt, heard));
            && v.rows.Keys == w.rows.Keys && v.past.Keys == w.past.Keys
            && forall row <- w.past | row != w.attempts[attempt].row :: v.past[row].delivered == w.past[row].delivered
  {
  }

  /** A publication puts the event where listeners may receive it. */
  lemma PublicationArrives(limit: nat, j: Joint.Joint, room: nat, message: ChatMessage)
    requires Joint.Enabled(j, Joint.LiveStep(Live.PublishMessage(room, message)))
    ensures var k := Joint.Apply(limit, j, Joint.LiveStep(Live.PublishMessage(room, message)));
            message in Live.At(k.world.published, room) && k.stores == j.stores
  {
    var k := Joint.Apply(limit, j, Joint.LiveStep(Live.PublishMessage(room, message)));
    var published := Live.At(k.world.published, room);
    assert published[|published| - 1] == message;
  }

  lemma PublishKeepsInv(limit: nat, s: System, attempt: nat, heard: bool)
    requires Inv(limit, s) && Enabled(s, Publish(attempt, heard))
    ensures Inv(limit, Apply(limit, s, Publish(attempt, heard)))
  {
    var mine := s.outbox.attempts[attempt].row;
    var k, w := Joint.Apply(limit, s.stream, Publication(s, mine)), Outbox.Apply(s.outbox, Report(attempt, heard));
    Joint.StepKeepsInv(limit, s.stream, Publication(s, mine));
    Outbox.StepKeepsInv(s.outbox, Report(attempt, heard));
    ReportKeepsRows(s.outbox, attempt, heard);
    PublicationArrives(limit, s.stream, RoomOf(s, mine), EventOf(s, mine));
    StreamsGrow(limit, s.stream, Publication(s, mine));
    PublishLinks(s, k, w, mine);
    SameOutboxes(s, System(k, w, s.source));
  }

  lemma PublishLinks(s: System, k: Joint.Joint, w: Outbox.World, mine: nat)
    requires Linked(s) && Grown(s.stream, k) && k.stores == s.stream.stores
    requires w.rows.Keys == s.outbox.rows.Keys && w.past.Keys == s.outbox.past.Keys
    requires forall row <- s.outbox.past | row != mine :: w.past[row].delivered == s.outbox.past[row].delivered
    requires Sourced(s, mine) && EventOf(s, mine) in Live.At(k.world.published, RoomOf(s, mine))
    ensures Linked(System(k, w, s.source))
  {
    var t := System(k, w, s.source);
    PublishedRow(s, t, mine);
    StaysLinked(s, t, {mine});
  }

  lemma PublishedRow(s: System, t: System, row: nat)
    requires Sourced(s, row) && t.source == s.source && t.stream.stores == s.stream.stores && row in t.outbox.past
    requires EventOf(s, row) in Live.At(t.stream.world.published, RoomOf(s, row))
    ensures RowLinked(t, row)
  {
  }

  lemma SameOutboxes(s: System, t: System)
    requires Complete(s) && t.source == s.source && t.stream.stores == s.stream.stores
    ensures Complete(t)
  {
    forall room: nat, i: nat | i < |Joint.StoreAt(t.stream, room).outbox| ensures HasRow(t, room, i) {
      assert Joint.StoreAt(t.stream, room) == Joint.StoreAt(s.stream, room);
      assert HasRow(s, room, i);
    }
  }

  lemma InsertionAddsOne(w: Outbox.World, row: nat, owner: nat, leaseMs: nat, attempt: nat)
    requires Outbox.Enabled(w, Outbox.InsertLeased(row, 0, owner, leaseMs, attempt)) && Outbox.Linked(w)
    ensures var v := Outbox.Apply(w, Outbox.InsertLeased(row, 0, owner, leaseMs, attempt));
            && v.rows.Keys == w.rows.Keys + {row} && v.past.Keys == w.past.Keys + {row}
            && !v.past[row].delivered && forall other <- w.past | other != row :: v.past[other] == w.past[other]
  {
  }

  lemma StoreKeepsInv(limit: nat, s: System, step: Step)
    requires Inv(limit, s) && Enabled(s, step) && step.Store?
    ensures Inv(limit, Apply(limit, s, step))
  {
    Joint.StepKeepsInv(limit, s.stream, Joint.LogStep(step.room, Log.Commit(step.tx)));
    Outbox.StepKeepsInv(s.outbox, Insertion(s, step));
    StoreLinks(limit, s, step);
    var t := Apply(limit, s, step);
    forall other: nat, i: nat | i < |Joint.StoreAt(t.stream, other).outbox| ensures HasRow(t, other, i) {
      StoreCompletes(limit, s, step, other, i);
    }
  }

  lemma StoreLinks(limit: nat, s: System, step: Step)
    requires Joint.Inv(limit, s.stream) && Linked(s) && Enabled(s, step) && step.Store?
    ensures Linked(Apply(limit, s, step))
  {
    var t := Apply(limit, s, step);
    InsertionAddsOne(s.outbox, step.row, Insertion(s, step).owner, step.leaseMs, step.attempt);
    StreamsGrow(limit, s.stream, Joint.LogStep(step.room, Log.Commit(step.tx)));
    StoreLinksNew(limit, s, step);
    AddLinked(s, t.stream, t.outbox, step.row, (step.room, |Joint.StoreAt(s.stream, step.room).outbox|));
  }

  lemma AddLinked(s: System, k: Joint.Joint, w: Outbox.World, row: nat, source: (nat, nat))
    requires Linked(s) && Grown(s.stream, k) && row !in s.source
    requires w.rows.Keys == s.outbox.rows.Keys + {row} && w.past.Keys == s.outbox.past.Keys + {row}
    requires forall other <- s.outbox.past | other != row :: w.past[other] == s.outbox.past[other]
    requires RowLinked(System(k, w, s.source[row := source]), row)
    ensures Linked(System(k, w, s.source[row := source]))
  {
    var t := System(k, w, s.source[row := source]);
    forall other <- t.source | other !in {row} ensures SameRow(s, t, other) {
      assert other in s.source && other in s.outbox.past;
    }
    StaysLinked(s, t, {row});
  }

  lemma StoreLinksNew(limit: nat, s: System, step: Step)
    requires Enabled(s, step) && step.Store? && step.row in Apply(limit, s, step).outbox.past
    requires !Apply(limit, s, step).outbox.past[step.row].delivered
    ensures RowLinked(Apply(limit, s, step), step.row)
  {
    CommitAddsRow(limit, s.stream, step.room, step.tx, step.room);
  }

  lemma StoreCompletes(limit: nat, s: System, step: Step, other: nat, i: nat)
    requires Complete(s) && s.source.Keys == s.outbox.rows.Keys && Enabled(s, step) && step.Store?
    requires i < |Joint.StoreAt(Apply(limit, s, step).stream, other).outbox|
    ensures HasRow(Apply(limit, s, step), other, i)
  {
    var t := Apply(limit, s, step);
    CommitAddsRow(limit, s.stream, step.room, step.tx, other);
    if i < |Joint.StoreAt(s.stream, other).outbox| {
      assert HasRow(s, other, i);
      var row :| row in s.source && s.source[row] == (other, i);
      assert row != step.row && t.source[row] == (other, i);
    } else {
      assert t.source[step.row] == (other, i);
    }
  }

  lemma StepKeepsInv(limit: nat, s: System, step: Step)
    requires Inv(limit, s) && Enabled(s, step)
    ensures Inv(limit, Apply(limit, s, step))
  {
    match step {
      case Stream(j) => StreamKeepsInv(limit, s, j);
      case Store(_, _, _, _, _) => StoreKeepsInv(limit, s, step);
      case Relay(o) => RelayKeepsInv(limit, s, o);
      case Publish(attempt, heard) => PublishKeepsInv(limit, s, attempt, heard);
    }
  }

  lemma RunsKeepInv(limit: nat, states: seq<System>)
    requires IsSystemRun(limit, states)
    ensures forall i | 0 <= i < |states| :: Inv(limit, states[i])
  {
    var inv := (s: System) => Inv(limit, s);
    var next := (s: System, t: System) => Next(limit, s, t);
    forall s, t | inv(s) && next(s, t) ensures inv(t) {
      var step :| Enabled(s, step) && t == Apply(limit, s, step);
      StepKeepsInv(limit, s, step);
    }
    Joint.InitialIsSound(limit);
    assert inv(states[0]);
    Invariance(inv, next, states);
    forall i | 0 <= i < |states| ensures Inv(limit, states[i]) { assert inv(states[i]); }
  }

  // ---------------------------------------------------------------------------------------------
  // Every committed event can still reach everybody
  // ---------------------------------------------------------------------------------------------

  ghost function Last(states: seq<System>): System
    requires states != []
  {
    states[|states| - 1]
  }

  lemma OneStep(limit: nat, states: seq<System>, step: Step)
    requires IsSystemRun(limit, states) && Enabled(Last(states), step)
    ensures IsSystemRun(limit, states + [Apply(limit, Last(states), step)])
    ensures Last(states + [Apply(limit, Last(states), step)]) == Apply(limit, Last(states), step)
    ensures states <= states + [Apply(limit, Last(states), step)]
  {
    var next := (s: System, t: System) => Next(limit, s, t);
    var t := Apply(limit, Last(states), step);
    assert next(Last(states), t);
    ExtendRun(next, states, t);
    assert (states + [t])[0] == states[0];
  }

  /** The listener heard the event as a message; if it is active it stands at or past it, was told of a gap
      reaching it, or has overflowed; and if it delivers it has delivered the event, unless the event was
      in its history, was skipped by a page, or waits behind a hole. */
  ghost predicate GotEvent(limit: nat, w: Live.World, id: nat, message: ChatMessage) {
    && id in w.fanout.registrations
    && var r := w.fanout.registrations[id];
       && message.position in CursorConfluence.Seen(r.inputs)
       && (r.listener.active ==>
             r.listener.cursor.Some? && Live.Reached(r.listener.cursor.value, r.listener.trace, message.position))
       && (Live.Delivering(w, id) ==> Live.AccountedFor(limit, r, message))
  }

  ghost predicate AllGotEvent(limit: nat, w: Live.World, room: nat, message: ChatMessage) {
    forall id | Live.Watches(w.fanout, room, id) :: GotEvent(limit, w, id, message)
  }

  /** The row is acknowledged, its event was published, and every listener of the room got it. */
  ghost predicate DeliveredToAll(limit: nat, s: System, row: nat) {
    && Sourced(s, row) && row in s.outbox.rows && s.outbox.rows[row].publishedAt.Some?
    && EventOf(s, row) in Live.At(s.stream.world.published, RoomOf(s, row))
    && AllGotEvent(limit, s.stream.world, RoomOf(s, row), EventOf(s, row))
  }

  ghost predicate Delivers(limit: nat, states: seq<System>, more: seq<System>, row: nat) {
    IsSystemRun(limit, more) && states <= more && DeliveredToAll(limit, Last(more), row)
  }

  /** Receiving a published event gets it to everybody. */
  lemma ReceptionReaches(limit: nat, j: Joint.Joint, room: nat, message: ChatMessage)
    requires Joint.Inv(limit, j) && message in Live.At(j.world.published, room)
    ensures var step := Joint.LiveStep(Live.ReceiveMessage(room, message));
            && Joint.Enabled(j, step)
            && var k := Joint.Apply(limit, j, step);
               AllGotEvent(limit, k.world, room, message) && k.stores == j.stores && k.world.published == j.world.published
  {
    var step := Joint.LiveStep(Live.ReceiveMessage(room, message));
    Joint.StepKeepsInv(limit, j, step);
    var w := Joint.Apply(limit, j, step).world;
    Live.ReceiveTells(limit, j.world.fanout, room, message);
    assert Live.Committed(w.logs, room, message);
    forall id | Live.Watches(w.fanout, room, id) ensures GotEvent(limit, w, id, message) {
      assert Live.Watches(j.world.fanout, room, id);
      LastIsSeen(j.world.fanout.registrations[id].inputs, message);
      ReceivedIsGot(limit, w, room, id, message);
    }
  }

  lemma LastIsSeen(inputs: seq<LiveCursor.Input>, message: ChatMessage)
    ensures message.position in CursorConfluence.Seen(inputs + [LiveCursor.Accepting(MessageNote(message))])
  {
    var more := inputs + [LiveCursor.Accepting(MessageNote(message))];
    assert more[|inputs|] in more;
  }

  lemma ReceivedIsGot(limit: nat, w: Live.World, room: nat, id: nat, message: ChatMessage)
    requires Live.Inv(limit, w) && Live.Watches(w.fanout, room, id) && id in w.fanout.registrations
    requires room in w.fanout.observedHeads && w.fanout.observedHeads[room] >= message.position
    requires Live.Committed(w.logs, room, message)
    requires message.position in CursorConfluence.Seen(w.fanout.registrations[id].inputs)
    ensures GotEvent(limit, w, id, message)
  {
    var r := w.fanout.registrations[id];
    assert r.room == room;
    assert Live.Covered(r, w.fanout.observedHeads[room]);
    assert Live.Seamless(limit, r);
    Live.GapLower(r.listener.trace, w.fanout.observedHeads[room], message.position);
    if Live.Delivering(w, id) { Live.HeardIsAccountedFor(limit, w, id, message); }
  }

  /** Once a row is acknowledged, one reception of its event delivers it to all. */
  lemma ReceiveNow(limit: nat, states: seq<System>, row: nat)
    requires IsSystemRun(limit, states) && row in Last(states).outbox.rows
    requires Last(states).outbox.rows[row].publishedAt.Some?
    ensures exists more :: Delivers(limit, states, more, row)
  {
    RunsKeepInv(limit, states);
    var s := Last(states);
    assert Inv(limit, s);
    AcknowledgedWasPublished(limit, s, row);
    ReceptionReaches(limit, s.stream, RoomOf(s, row), EventOf(s, row));
    var step := Stream(Joint.LiveStep(Live.ReceiveMessage(RoomOf(s, row), EventOf(s, row))));
    OneStep(limit, states, step);
    var t := Apply(limit, s, step);
    ReceivedByAll(limit, s, t, row);
    assert Delivers(limit, states, states + [t], row);
  }

  lemma AcknowledgedWasPublished(limit: nat, s: System, row: nat)
    requires Inv(limit, s) && row in s.outbox.rows && s.outbox.rows[row].publishedAt.Some?
    ensures Sourced(s, row) && EventOf(s, row) in Live.At(s.stream.world.published, RoomOf(s, row))
  {
    assert RowLinked(s, row);
    assert Outbox.RowSound(s.outbox.now, s.outbox.rows[row], s.outbox.past[row]);
  }

  lemma ReceivedByAll(limit: nat, s: System, t: System, row: nat)
    requires Sourced(s, row) && row in s.outbox.rows && s.outbox.rows[row].publishedAt.Some?
    requires EventOf(s, row) in Live.At(s.stream.world.published, RoomOf(s, row))
    requires t.source == s.source && t.outbox == s.outbox && t.stream.stores == s.stream.stores
    requires t.stream.world.published == s.stream.world.published
    requires AllGotEvent(limit, t.stream.world, RoomOf(s, row), EventOf(s, row))
    ensures DeliveredToAll(limit, t, row)
  {
    assert Joint.StoreAt(t.stream, RoomOf(s, row)) == Joint.StoreAt(s.stream, RoomOf(s, row));
  }

  lemma Later(limit: nat, states: seq<System>, t: System, row: nat)
    requires exists more :: Delivers(limit, states + [t], more, row)
    ensures exists more :: Delivers(limit, states, more, row)
  {
    var more :| Delivers(limit, states + [t], more, row);
    assert states <= states + [t] <= more;
    assert Delivers(limit, states, more, row);
  }

  /** The attempt has published and its acknowledgement will win. */
  ghost predicate AboutToWin(w: Outbox.World, row: nat, attempt: nat) {
    && Outbox.Linked(w) && Outbox.Enabled(w, Outbox.Acknowledge(attempt, Outbox.Heard))
    && var v := Outbox.Apply(w, Outbox.Acknowledge(attempt, Outbox.Heard));
       row in v.rows && v.rows[row].publishedAt.Some?
  }

  lemma AcknowledgeNow(limit: nat, states: seq<System>, row: nat, attempt: nat)
    requires IsSystemRun(limit, states) && AboutToWin(Last(states).outbox, row, attempt)
    ensures exists more :: Delivers(limit, states, more, row)
  {
    var step := Relay(Outbox.Acknowledge(attempt, Outbox.Heard));
    OneStep(limit, states, step);
    var t := Apply(limit, Last(states), step);
    ReceiveNow(limit, states + [t], row);
    Later(limit, states, t, row);
  }

  /** A leased attempt that is publishing can publish and acknowledge. */
  lemma PublishNow(limit: nat, states: seq<System>, row: nat, attempt: nat)
    requires IsSystemRun(limit, states) && Outbox.ReadyToPublish(Last(states).outbox, row, attempt)
    ensures exists more :: Delivers(limit, states, more, row)
  {
    RunsKeepInv(limit, states);
    var s := Last(states);
    assert Inv(limit, s);
    PublicationIsEnabled(limit, s, row, attempt);
    OneStep(limit, states, Publish(attempt, true));
    var t := Apply(limit, s, Publish(attempt, true));
    PublishedMayAcknowledge(s.outbox, row, attempt);
    AcknowledgeNow(limit, states + [t], row, attempt);
    Later(limit, states, t, row);
  }

  lemma PublicationIsEnabled(limit: nat, s: System, row: nat, attempt: nat)
    requires Inv(limit, s) && Outbox.ReadyToPublish(s.outbox, row, attempt)
    ensures Enabled(s, Publish(attempt, true)) && Outbox.Linked(s.outbox) && row in s.outbox.past
  {
    assert RowLinked(s, row);
    OutboxLinked(limit, s);
    MayPublish(limit, s, row);
  }

  lemma OutboxLinked(limit: nat, s: System)
    requires Inv(limit, s)
    ensures Outbox.Linked(s.outbox)
  {
    forall a <- s.outbox.attempts ensures s.outbox.attempts[a].row in s.outbox.rows {
      assert Outbox.AttemptSound(s.outbox.past, s.outbox.attempts[a]);
    }
  }

  lemma MayPublish(limit: nat, s: System, row: nat)
    requires Inv(limit, s) && Sourced(s, row)
    ensures Joint.Enabled(s.stream, Publication(s, row))
  {
    var delivery := RowsOf(s, row)[s.source[row].1];
    assert delivery in RowsOf(s, row);
    Joint.OutboxMayPublish(limit, s.stream, RoomOf(s, row), delivery);
  }

  lemma PublishedMayAcknowledge(w: Outbox.World, row: nat, attempt: nat)
    requires Outbox.Linked(w) && Outbox.ReadyToPublish(w, row, attempt) && row in w.past
    ensures AboutToWin(Outbox.Apply(w, Outbox.PublishSucceeds(attempt)), row, attempt)
  {
  }

  /** A row that can be claimed can be delivered. */
  lemma ClaimNow(limit: nat, states: seq<System>, row: nat)
    requires IsSystemRun(limit, states) && row in Last(states).outbox.rows
    requires var w := Last(states).outbox; Outbox.Claimable(w.rows[row], {w.rows[row].destination}, w.now)
    ensures exists more :: Delivers(limit, states, more, row)
  {
    RunsKeepInv(limit, states);
    var s := Last(states);
    assert Inv(limit, s);
    OutboxLinked(limit, s);
    Ordering.BoundExists(s.outbox.attempts.Keys);
    var attempt: nat :| Ordering.Above(attempt, s.outbox.attempts.Keys);
    assert attempt !in s.outbox.attempts;
    Outbox.ClaimTakes(s.outbox, row, attempt);
    var step := Relay(Outbox.ClaimRow(row, 0, 1_000, attempt));
    OneStep(limit, states, step);
    var t := Apply(limit, s, step);
    PublishNow(limit, states + [t], row, attempt);
    Later(limit, states, t, row);
  }

  /** An unfinished row can be claimed after the longest retry. */
  lemma WaitAndClaim(limit: nat, states: seq<System>, row: nat)
    requires IsSystemRun(limit, states) && row in Last(states).outbox.rows
    requires Outbox.Pending(Last(states).outbox.rows[row])
    ensures exists more :: Delivers(limit, states, more, row)
  {
    RunsKeepInv(limit, states);
    var s := Last(states);
    assert Inv(limit, s);
    OutboxLinked(limit, s);
    assert Outbox.RowSound(s.outbox.now, s.outbox.rows[row], s.outbox.past[row]);
    var step := Relay(Outbox.Tick(s.outbox.now + Outbox.MAX_RETRY + 1));
    OneStep(limit, states, step);
    var t := Apply(limit, s, step);
    ClaimNow(limit, states + [t], row);
    Later(limit, states, t, row);
  }

  // Dead rows stay dead

  lemma OutboxMoves(limit: nat, s: System, step: Step)
    requires Enabled(s, step)
    ensures Outbox.Onward(s.outbox, Apply(limit, s, step).outbox)
  {
    match step {
      case Store(_, _, _, _, _) => Outbox.StepIsOnward(s.outbox, Insertion(s, step));
      case Relay(o) => Outbox.StepIsOnward(s.outbox, o);
      case Publish(attempt, heard) => Outbox.StepIsOnward(s.outbox, Report(attempt, heard));
      case Stream(_) =>
    }
  }

  lemma RowsMoveOn(limit: nat, states: seq<System>, i: nat, j: nat)
    requires IsSystemRun(limit, states) && i <= j < |states|
    ensures Outbox.Onward(states[i].outbox, states[j].outbox)
  {
    var onward := (s: System, t: System) => Outbox.Onward(s.outbox, t.outbox);
    var next := (s: System, t: System) => Next(limit, s, t);
    forall s, t | next(s, t) ensures onward(s, t) {
      var step :| Enabled(s, step) && t == Apply(limit, s, step);
      OutboxMoves(limit, s, step);
    }
    forall s, t, u | onward(s, t) && onward(t, u) ensures onward(s, u) {
      Outbox.OnwardIsTransitive(s.outbox, t.outbox, u.outbox);
    }
    Progress(onward, next, states, i, j);
    assert onward(states[i], states[j]);
  }

  /** Whatever crashed, was lost or went wrong: a run continues to one in which a delivery row is
      acknowledged under a lease, its event published and reached by every active listener of its room,
      if and only if the row is not dead. */
  lemma ReachesEverybodyExactly(limit: nat, states: seq<System>, row: nat)
    requires IsSystemRun(limit, states) && row in Last(states).outbox.rows
    ensures (exists more :: Delivers(limit, states, more, row)) <==> Last(states).outbox.rows[row].deadAt.None?
  {
    var s := Last(states);
    RunsKeepInv(limit, states);
    assert Inv(limit, s) && Outbox.RowSound(s.outbox.now, s.outbox.rows[row], s.outbox.past[row]);
    if s.outbox.rows[row].publishedAt.Some? {
      ReceiveNow(limit, states, row);
    } else if s.outbox.rows[row].deadAt.None? {
      WaitAndClaim(limit, states, row);
    } else {
      forall more | Delivers(limit, states, more, row) ensures false {
        DeadStaysDead(limit, states, more, row);
      }
    }
  }

  lemma DeadStaysDead(limit: nat, states: seq<System>, more: seq<System>, row: nat)
    requires IsSystemRun(limit, more) && states != [] && states <= more
    requires row in Last(states).outbox.rows && Last(states).outbox.rows[row].deadAt.Some?
    requires Last(states).outbox.rows[row].publishedAt.None?
    ensures row in Last(more).outbox.rows && Last(more).outbox.rows[row].publishedAt.None?
  {
    assert more[|states| - 1] == Last(states);
    RowsMoveOn(limit, more, |states| - 1, |more| - 1);
  }

  /** Every committed event has such a row. */
  lemma EveryEventHasARow(limit: nat, states: seq<System>, room: nat, i: nat)
    requires IsSystemRun(limit, states) && i < |Joint.StoreAt(Last(states).stream, room).committed|
    ensures exists row :: Sourced(Last(states), row) && row in Last(states).outbox.rows && RoomOf(Last(states), row) == room
              && EventOf(Last(states), row) == Joint.StoreAt(Last(states).stream, room).committed[i]
  {
    RunsKeepInv(limit, states);
    assert Inv(limit, Last(states));
    EventHasARow(limit, Last(states), room, i);
  }

  lemma EventHasARow(limit: nat, s: System, room: nat, i: nat)
    requires Inv(limit, s) && i < |Joint.StoreAt(s.stream, room).committed|
    ensures exists row :: Sourced(s, row) && row in s.outbox.rows && RoomOf(s, row) == room
              && EventOf(s, row) == Joint.StoreAt(s.stream, room).committed[i]
  {
    var store := Joint.StoreAt(s.stream, room);
    CommittedIsListed(limit, s, room, i);
    assert HasRow(s, room, i);
    var row :| row in s.source && s.source[row] == (room, i);
    assert RowLinked(s, row);
    assert EventOf(s, row) == store.outbox[i].event;
  }

  lemma CommittedIsListed(limit: nat, s: System, room: nat, i: nat)
    requires Joint.Inv(limit, s.stream) && i < |Joint.StoreAt(s.stream, room).committed|
    ensures var store := Joint.StoreAt(s.stream, room); i < |store.outbox| && store.outbox[i].event == store.committed[i]
  {
    var store := Joint.StoreAt(s.stream, room);
    assert Log.Inv(store);
    assert Log.OneWriteEach(Log.StoredEntries(store.decisions), store.committed, store.outbox);
  }
}
