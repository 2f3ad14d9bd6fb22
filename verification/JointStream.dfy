/** The log and the live path as one machine: every meeting has the store that its `accept` transactions
    write, what they commit is what may be published, and every watermark and page the live path uses is
    read from that store. */
module JointStream {
  import opened ChatTypes
  import opened Runs
  import opened LiveCursor
  import Log = ChatLog
  import Live = LiveDelivery
  import History

  /** Who asks for a page, from where and how much; `expired` are rows past their time but not deleted. */
  datatype Request = Request(reader: History.Reader, after: nat, limit: nat, expired: set<nat>)

  /** A page with the snapshot it was read from and the socket's position when it was sent. */
  datatype Served = Served(request: Request, snapshot: History.Snapshot, page: History.Page, cursor: nat)

  /** `asked` are pages that were read and not sent yet, `served` the pages sent to each listener. */
  datatype Joint = Joint(
    stores: map<nat, Log.Store>, world: Live.World, asked: map<nat, Served>, served: map<nat, seq<Served>>)

  datatype Step =
    | LogStep(room: nat, log: Log.Step)
    | LiveStep(live: Live.Step)
    | ReadHeads(rooms: seq<nat>)
    | Subscribe(id: nat, request: Request)
    | Ask(id: nat, request: Request)
    | Answer(id: nat)

  function Initial(): Joint {
    Joint(map[], Live.Initial(), map[], map[])
  }

  function StoreAt(j: Joint, room: nat): Log.Store {
    if room in j.stores then j.stores[room] else Log.Initial()
  }

  function ServedTo(j: Joint, id: nat): seq<Served> {
    if id in j.served then j.served[id] else []
  }

  function Serve(store: Log.Store, request: Request, cursor: nat): Served {
    var snapshot := History.SnapshotOf(store, request.expired);
    Served(request, snapshot, History.ReadPage(request.reader, snapshot, request.after, request.limit), cursor)
  }

  predicate Registered(j: Joint, id: nat) {
    id in j.world.fanout.registrations
  }

  /** A socket with a cursor, which may ask for further pages. */
  predicate Paging(j: Joint, id: nat) {
    && Registered(j, id)
    && var l := j.world.fanout.registrations[id].listener; l.cursor.Some? && (l.active || l.overflowed)
  }

  /** Only a row of the outbox is published, and commits and reads go through the store. */
  ghost predicate Enabled(j: Joint, step: Step) {
    match step
    case LogStep(room, log) => Log.Enabled(StoreAt(j, room), log)
    case LiveStep(live) =>
      && Live.Enabled(j.world, live)
      && !live.CommitMessage? && !live.ReadHeads? && !live.ReadPage? && !live.AdvanceCursor?
      && (live.PublishMessage? ==> exists row <- StoreAt(j, live.room).outbox :: row.event == live.message)
    case ReadHeads(_) => j.world.poll.None?
    case Subscribe(id, request) =>
      Registered(j, id) && j.world.fanout.registrations[id].start.None? && request.limit >= 1
    case Ask(id, request) => Paging(j, id) && id !in j.asked && request.limit >= 1
    case Answer(id) => Paging(j, id) && id in j.asked
  }

  ghost function Apply(limit: nat, j: Joint, step: Step): Joint
    requires Enabled(j, step)
  {
    match step
    case LogStep(room, log) =>
      var store := Log.Apply(StoreAt(j, room), log);
      var stored := j.(stores := j.stores[room := store]);
      if store.committed == StoreAt(j, room).committed then stored
      else stored.(world := j.world.(logs := j.world.logs[room := store.committed]))
    case LiveStep(live) => j.(world := Live.Apply(limit, j.world, live))
    case ReadHeads(rooms) =>
      j.(world := j.world.(poll := Some(
        seq(|rooms|, i requires 0 <= i < |rooms| => (rooms[i], StoreAt(j, rooms[i]).head)))))
    case Subscribe(id, request) =>
      var r := j.world.fanout.registrations[id];
      var store := StoreAt(j, r.room);
      j.(world := Live.Replace(j.world, id, r.(start := Some(store.head))),
         served := j.served[id := [Serve(store, request, store.head)]])
    case Ask(id, request) =>
      j.(asked := j.asked[id := Serve(StoreAt(j, j.world.fanout.registrations[id].room), request, 0)])
    case Answer(id) =>
      var r := j.world.fanout.registrations[id];
      var sent := j.asked[id].(cursor := r.listener.cursor.value.position);
      var next := sent.page.nextAfterPosition;
      j.(world := Live.Replace(j.world, id,
           r.(inputs := r.inputs + [Advancing(next)], listener := Live.AdvanceListener(r.listener, next))),
         asked := j.asked - {id},
         served := j.served[id := ServedTo(j, id) + [sent]])
  }

  ghost predicate Next(limit: nat, j: Joint, k: Joint) {
    exists step :: Enabled(j, step) && k == Apply(limit, j, step)
  }

  ghost predicate IsJointRun(limit: nat, states: seq<Joint>) {
    IsRun((j: Joint, k: Joint) => Next(limit, j, k), states) && states[0] == Initial()
  }

  // ---------------------------------------------------------------------------------------------
  // The stores and the streams are the same
  // ---------------------------------------------------------------------------------------------

  ghost predicate StoresSound(j: Joint) {
    forall room: nat :: Log.Inv(StoreAt(j, room))
  }

  /** What the live path takes for the log of a room is what the room's transactions committed. */
  ghost predicate Aligned(j: Joint) {
    forall room: nat :: Live.At(j.world.logs, room) == StoreAt(j, room).committed
  }

  /** No page leads past the head. */
  ghost predicate AskedSound(j: Joint) {
    forall id <- j.asked ::
      && Registered(j, id)
      && j.asked[id].page.nextAfterPosition <= StoreAt(j, j.world.fanout.registrations[id].room).head
  }

  ghost predicate Inv(limit: nat, j: Joint) {
    StoresSound(j) && Aligned(j) && AskedSound(j) && Live.Inv(limit, j.world)
  }

  lemma InitialIsSound(limit: nat)
    ensures Inv(limit, Initial())
  {
    assert Log.Inv(Log.Initial());
  }

  lemma HeadCounts(limit: nat, j: Joint, room: nat)
    requires Inv(limit, j)
    ensures StoreAt(j, room).head == |Live.At(j.world.logs, room)|
  {
    assert Log.Inv(StoreAt(j, room));
  }

  /** One step is, for the live path, no step or one of its own. */
  ghost predicate LiveMoves(limit: nat, j: Joint, k: Joint) {
    k.world == j.world || Live.Next(limit, j.world, k.world)
  }

  lemma LogStepMoves(limit: nat, j: Joint, room: nat, log: Log.Step)
    requires Inv(limit, j) && Enabled(j, LogStep(room, log))
    ensures LiveMoves(limit, j, Apply(limit, j, LogStep(room, log)))
  {
    var s := StoreAt(j, room);
    assert Log.Inv(s);
    Log.StepCommits(s, log);
    var after := Log.Apply(s, log).committed;
    if after != s.committed {
      var message: ChatMessage :| message.position == |s.committed| + 1 && after == s.committed + [message];
      assert Live.Enabled(j.world, Live.CommitMessage(room, message));
      assert Apply(limit, j, LogStep(room, log)).world == Live.Apply(limit, j.world, Live.CommitMessage(room, message));
    }
  }

  lemma ReadHeadsMoves(limit: nat, j: Joint, rooms: seq<nat>)
    requires Inv(limit, j) && Enabled(j, ReadHeads(rooms))
    ensures LiveMoves(limit, j, Apply(limit, j, ReadHeads(rooms)))
  {
    var t := Apply(limit, j, ReadHeads(rooms)).world;
    var live := Live.Apply(limit, j.world, Live.ReadHeads(rooms));
    forall i | 0 <= i < |rooms| ensures t.poll.value[i] == live.poll.value[i] {
      HeadCounts(limit, j, rooms[i]);
    }
    assert t.poll.value == live.poll.value;
  }

  lemma PageMoves(limit: nat, j: Joint, step: Step)
    requires Inv(limit, j) && Enabled(j, step) && (step.Subscribe? || step.Ask? || step.Answer?)
    ensures LiveMoves(limit, j, Apply(limit, j, step))
  {
    var id := step.id;
    HeadCounts(limit, j, j.world.fanout.registrations[id].room);
    var t := Apply(limit, j, step).world;
    match step {
      case Subscribe(_, _) =>
        assert Live.Enabled(j.world, Live.ReadPage(id)) && t == Live.Apply(limit, j.world, Live.ReadPage(id));
      case Answer(_) =>
        var move := Live.AdvanceCursor(id, j.asked[id].page.nextAfterPosition);
        assert Live.Enabled(j.world, move) && t == Live.Apply(limit, j.world, move);
      case Ask(_, _) =>
    }
  }

  lemma StepMoves(limit: nat, j: Joint, step: Step)
    requires Inv(limit, j) && Enabled(j, step)
    ensures LiveMoves(limit, j, Apply(limit, j, step))
  {
    match step {
      case LogStep(room, log) => LogStepMoves(limit, j, room, log);
      case ReadHeads(rooms) => ReadHeadsMoves(limit, j, rooms);
      case LiveStep(live) => assert Live.Enabled(j.world, live);
      case _ => PageMoves(limit, j, step);
    }
  }

  /** A publication through the outbox is a publication of a committed event. */
  lemma OutboxMayPublish(limit: nat, j: Joint, room: nat, row: Log.OutboxRow)
    requires Inv(limit, j) && row in StoreAt(j, room).outbox
    ensures Live.Enabled(j.world, Live.PublishMessage(room, row.event))
  {
    var s := StoreAt(j, room);
    assert Log.Inv(s);
    var i :| 0 <= i < |s.outbox| && s.outbox[i] == row;
    Log.OutboxIsCommitted(s, i);
  }

  lemma LiveKeeps(limit: nat, w: Live.World, v: Live.World)
    requires Live.Inv(limit, w) && (v == w || Live.Next(limit, w, v))
    ensures Live.Inv(limit, v)
  {
    if v != w {
      var step :| Live.Enabled(w, step) && v == Live.Apply(limit, w, step);
      Live.StepKeepsInv(limit, w, step);
    }
  }

  lemma StoresStaySound(limit: nat, j: Joint, step: Step)
    requires Inv(limit, j) && Enabled(j, step)
    ensures StoresSound(Apply(limit, j, step))
    ensures forall room: nat :: StoreAt(j, room).head <= StoreAt(Apply(limit, j, step), room).head
  {
    var k := Apply(limit, j, step);
    forall room: nat ensures Log.Inv(StoreAt(k, room)) && StoreAt(j, room).head <= StoreAt(k, room).head {
      assert Log.Inv(StoreAt(j, room));
      StoreStaysSound(limit, j, step, room);
    }
  }

  lemma StoreAfter(limit: nat, j: Joint, step: Step, room: nat)
    requires Enabled(j, step)
    ensures StoreAt(Apply(limit, j, step), room)
            == if step.LogStep? && step.room == room then Log.Apply(StoreAt(j, room), step.log) else StoreAt(j, room)
  {
  }

  lemma StoreStaysSound(limit: nat, j: Joint, step: Step, room: nat)
    requires Log.Inv(StoreAt(j, room)) && Enabled(j, step)
    ensures var k := Apply(limit, j, step);
            Log.Inv(StoreAt(k, room)) && StoreAt(j, room).head <= StoreAt(k, room).head
  {
    StoreAfter(limit, j, step, room);
    if step.LogStep? && step.room == room {
      Log.StepKeepsInv(StoreAt(j, room), step.log);
      Log.StepGrows(StoreAt(j, room), step.log);
    }
  }

  /** Only a log step changes a log, and it changes it to what the store committed. */
  lemma AlignedStep(limit: nat, j: Joint, step: Step)
    requires Inv(limit, j) && Enabled(j, step)
    ensures Aligned(Apply(limit, j, step))
  {
    var k := Apply(limit, j, step);
    forall room: nat ensures Live.At(k.world.logs, room) == StoreAt(k, room).committed {
      assert Live.At(j.world.logs, room) == StoreAt(j, room).committed;
      match step {
        case LogStep(other, log) => LogStepAligns(limit, j, other, log, room);
        case LiveStep(live) => LiveKeepsLogs(limit, j.world, live);
        case _ =>
      }
    }
  }

  lemma LogStepAligns(limit: nat, j: Joint, other: nat, log: Log.Step, room: nat)
    requires Enabled(j, LogStep(other, log))
    requires Live.At(j.world.logs, room) == StoreAt(j, room).committed
    ensures var k := Apply(limit, j, LogStep(other, log));
            Live.At(k.world.logs, room) == StoreAt(k, room).committed
  {
  }

  lemma LiveKeepsLogs(limit: nat, w: Live.World, live: Live.Step)
    requires Live.Enabled(w, live) && !live.CommitMessage?
    ensures Live.Apply(limit, w, live).logs == w.logs
  {
  }

  /** Registrations never disappear and keep their room. */
  lemma LiveKeepsRooms(limit: nat, w: Live.World, live: Live.Step)
    requires Live.Enabled(w, live)
    ensures var v := Live.Apply(limit, w, live);
            forall id <- w.fanout.registrations ::
              id in v.fanout.registrations && v.fanout.registrations[id].room == w.fanout.registrations[id].room
  {
    if live.ApplyHeads? { PollKeepsRooms(limit, w.fanout, w.poll.value); }
  }

  lemma {:induction false} PollKeepsRooms(limit: nat, f: Live.Fanout, heads: seq<(nat, nat)>)
    ensures var g := Live.ApplyPoll(limit, f, heads);
            forall id <- f.registrations ::
              id in g.registrations && g.registrations[id].room == f.registrations[id].room
    decreases |heads|
  {
    if heads != [] { PollKeepsRooms(limit, f, heads[..|heads| - 1]); }
  }

  lemma PageWithinHead(store: Log.Store, request: Request, cursor: nat)
    requires Log.Inv(store) && request.limit >= 1
    ensures Serve(store, request, cursor).page.nextAfterPosition <= store.head
    ensures History.WellFormed(Serve(store, request, cursor).snapshot)
  {
    var snapshot := History.SnapshotOf(store, request.expired);
    assert History.WellFormed(snapshot);
    History.PageIsExact(request.reader, snapshot, request.after, request.limit);
  }

  lemma AskedStep(limit: nat, j: Joint, step: Step)
    requires Inv(limit, j) && Enabled(j, step)
    ensures AskedSound(Apply(limit, j, step))
  {
    var k := Apply(limit, j, step);
    forall id <- k.asked
      ensures Registered(k, id)
      ensures k.asked[id].page.nextAfterPosition <= StoreAt(k, k.world.fanout.registrations[id].room).head
    {
      if step.Ask? && step.id == id {
        var room := j.world.fanout.registrations[id].room;
        assert Log.Inv(StoreAt(j, room));
        PageWithinHead(StoreAt(j, room), step.request, 0);
      } else {
        assert id in j.asked && Registered(j, id);
        AskedStays(limit, j, step, id);
      }
    }
  }

  lemma AskedStays(limit: nat, j: Joint, step: Step, id: nat)
    requires Inv(limit, j) && Enabled(j, step) && Registered(j, id)
    ensures var k, room := Apply(limit, j, step), j.world.fanout.registrations[id].room;
            && Registered(k, id) && k.world.fanout.registrations[id].room == room
            && StoreAt(j, room).head <= StoreAt(k, room).head
  {
    RoomStays(limit, j, step, id);
    assert Log.Inv(StoreAt(j, j.world.fanout.registrations[id].room));
    StoreStaysSound(limit, j, step, j.world.fanout.registrations[id].room);
  }

  lemma RoomStays(limit: nat, j: Joint, step: Step, id: nat)
    requires Enabled(j, step) && Registered(j, id)
    ensures var k := Apply(limit, j, step);
            Registered(k, id) && k.world.fanout.registrations[id].room == j.world.fanout.registrations[id].room
  {
    if step.LiveStep? { LiveKeepsRooms(limit, j.world, step.live); }
  }

  lemma StepKeepsInv(limit: nat, j: Joint, step: Step)
    requires Inv(limit, j) && Enabled(j, step)
    ensures Inv(limit, Apply(limit, j, step))
  {
    StoresStaySound(limit, j, step);
    AlignedStep(limit, j, step);
    AskedStep(limit, j, step);
    StepMoves(limit, j, step);
    LiveKeeps(limit, j.world, Apply(limit, j, step).world);
  }

  /** In every joint state the live path's log of each room is the committed log of its store. */
  lemma StreamsAreAligned(limit: nat, states: seq<Joint>)
    requires IsJointRun(limit, states)
    ensures forall i | 0 <= i < |states| :: Inv(limit, states[i])
  {
    var inv := (j: Joint) => Inv(limit, j);
    var next := (j: Joint, k: Joint) => Next(limit, j, k);
    forall j, k | inv(j) && next(j, k) ensures inv(k) {
      var step :| Enabled(j, step) && k == Apply(limit, j, step);
      StepKeepsInv(limit, j, step);
    }
    InitialIsSound(limit);
    assert inv(states[0]);
    Invariance(inv, next, states);
    forall i | 0 <= i < |states| ensures Inv(limit, states[i]) { assert inv(states[i]); }
  }

  // ---------------------------------------------------------------------------------------------
  // Both projections are runs
  // ---------------------------------------------------------------------------------------------

  ghost predicate LiveRunTo(limit: nat, worlds: seq<Live.World>, w: Live.World) {
    Live.IsLiveRun(limit, worlds) && worlds[|worlds| - 1] == w
  }

  ghost predicate LogRunTo(stores: seq<Log.Store>, s: Log.Store) {
    IsRun(Log.Next, stores) && stores[0] == Log.Initial() && stores[|stores| - 1] == s
  }

  lemma StepOfRun(limit: nat, states: seq<Joint>, i: nat) returns (step: Step)
    requires IsJointRun(limit, states) && i + 1 < |states|
    ensures Enabled(states[i], step) && states[i + 1] == Apply(limit, states[i], step)
  {
    var j := i + 1;
    assert Next(limit, states[i], states[j]);
    step :| Enabled(states[i], step) && states[i + 1] == Apply(limit, states[i], step);
  }

  /** The live path of a joint run went through a run of its own, so every theorem about those applies. */
  lemma {:induction false} LiveProjection(limit: nat, states: seq<Joint>, i: nat)
    requires IsJointRun(limit, states) && i < |states|
    ensures exists worlds :: LiveRunTo(limit, worlds, states[i].world)
    decreases i
  {
    if i == 0 {
      assert LiveRunTo(limit, [Live.Initial()], states[0].world);
    } else {
      LiveProjection(limit, states, i - 1);
      var worlds :| LiveRunTo(limit, worlds, states[i - 1].world);
      StreamsAreAligned(limit, states);
      var step := StepOfRun(limit, states, i - 1);
      StepMoves(limit, states[i - 1], step);
      if states[i].world == states[i - 1].world {
        assert LiveRunTo(limit, worlds, states[i].world);
      } else {
        var next := (w: Live.World, v: Live.World) => Live.Next(limit, w, v);
        assert next(states[i - 1].world, states[i].world);
        ExtendRun(next, worlds, states[i].world);
        assert LiveRunTo(limit, worlds + [states[i].world], states[i].world);
      }
    }
  }

  /** And each room's store went through a run of interleaved transactions. */
  lemma {:induction false} LogProjection(limit: nat, states: seq<Joint>, i: nat, room: nat)
    requires IsJointRun(limit, states) && i < |states|
    ensures exists stores :: LogRunTo(stores, StoreAt(states[i], room))
    decreases i
  {
    if i == 0 {
      assert LogRunTo([Log.Initial()], StoreAt(states[0], room));
    } else {
      LogProjection(limit, states, i - 1, room);
      var stores :| LogRunTo(stores, StoreAt(states[i - 1], room));
      var step := StepOfRun(limit, states, i - 1);
      var before, after := StoreAt(states[i - 1], room), StoreAt(states[i], room);
      if step.LogStep? && step.room == room {
        assert Log.Next(before, after);
        ExtendRun(Log.Next, stores, after);
        assert LogRunTo(stores + [after], after);
      } else {
        assert after == before;
      }
    }
  }

  lemma StoreGrows(limit: nat, j: Joint, step: Step, room: nat)
    requires Enabled(j, step) && Log.Inv(StoreAt(j, room))
    ensures Log.Grown(StoreAt(j, room), StoreAt(Apply(limit, j, step), room))
  {
    StoreAfter(limit, j, step, room);
    if step.LogStep? && step.room == room { Log.StepGrows(StoreAt(j, room), step.log); }
  }

  lemma GrownIsTransitive(s: Log.Store, t: Log.Store, u: Log.Store)
    requires Log.Grown(s, t) && Log.Grown(t, u)
    ensures Log.Grown(s, u)
  {
  }

  lemma RoomSound(limit: nat, states: seq<Joint>, i: nat, room: nat)
    requires IsJointRun(limit, states) && i < |states|
    ensures Log.Inv(StoreAt(states[i], room))
  {
    StreamsAreAligned(limit, states);
    assert Inv(limit, states[i]);
  }

  /** Committed history only grows along a joint run. */
  lemma StoresGrow(limit: nat, states: seq<Joint>, i: nat, j: nat, room: nat)
    requires IsJointRun(limit, states) && i <= j < |states|
    ensures Log.Inv(StoreAt(states[i], room)) && Log.Inv(StoreAt(states[j], room))
    ensures Log.Grown(StoreAt(states[i], room), StoreAt(states[j], room))
  {
    var grown := (a: Joint, b: Joint) => Log.Grown(StoreAt(a, room), StoreAt(b, room));
    var sound := (a: Joint, b: Joint) => Log.Inv(StoreAt(a, room)) && Next(limit, a, b);
    SoundRun(limit, states, room);
    forall a, b | sound(a, b) ensures grown(a, b) {
      var step :| Enabled(a, step) && b == Apply(limit, a, step);
      StoreGrows(limit, a, step, room);
    }
    forall a, b, c | grown(a, b) && grown(b, c) ensures grown(a, c) {
      GrownIsTransitive(StoreAt(a, room), StoreAt(b, room), StoreAt(c, room));
    }
    Progress(grown, sound, states, i, j);
    assert grown(states[i], states[j]);
    RoomSound(limit, states, i, room);
    RoomSound(limit, states, j, room);
  }

  lemma SoundRun(limit: nat, states: seq<Joint>, room: nat)
    requires IsJointRun(limit, states)
    ensures IsRun((a: Joint, b: Joint) => Log.Inv(StoreAt(a, room)) && Next(limit, a, b), states)
  {
    forall i, j | 0 <= i && j == i + 1 && j < |states|
      ensures Log.Inv(StoreAt(states[i], room)) && Next(limit, states[i], states[j])
    {
      RoomSound(limit, states, i, room);
    }
  }
}
