/** Live delivery: the fan-out service with its watermark poll (src/modules/chat/chat-fanout.service.ts)
    and the subscribe, buffer, read, activate handover of the gateway
    (src/modules/realtime/realtime.gateway.ts:395-452). Redis Pub/Sub may drop, repeat and reorder, and
    carries only published messages, which are committed ones. */
module LiveDelivery {
  import opened ChatTypes
  import opened LiveCursor
  import opened CursorConfluence
  import opened Runs
  import opened Ordering

  // ---------------------------------------------------------------------------------------------
  // One listener: the variables captured by `prepareChatSubscription`
  // ---------------------------------------------------------------------------------------------

  /** `trace` is the callback trace of the cursor. */
  datatype Listener = Listener(
    pending: seq<Notification>, cursor: Option<Cursor>, active: bool, overflowed: bool, trace: seq<Event>)

  function NewListener(): Listener {
    Listener([], None, false, false, [])
  }

  function Hear(limit: nat, listener: Listener, note: Notification): Listener {
    if !listener.active || listener.cursor.None? then
      if |listener.pending| >= limit then listener.(overflowed := true)
      else listener.(pending := listener.pending + [note])
    else
      var out := Accept(limit, listener.cursor.value, note);
      listener.(cursor := Some(out.cursor), trace := listener.trace + out.events)
  }

  function Synchronize(listener: Listener, highWatermark: nat): Listener {
    listener.(cursor := Some(Fresh(highWatermark)))
  }

  function Activate(limit: nat, listener: Listener): Listener
    requires listener.cursor.Some?
  {
    if listener.active || listener.overflowed then listener
    else
      var out := Run(limit, listener.cursor.value, Inputs(listener.pending));
      Listener([], Some(out.cursor), true, false, listener.trace + out.events)
  }

  function AdvanceListener(listener: Listener, position: nat): Listener
    requires listener.cursor.Some?
  {
    var out := Advance(listener.cursor.value, position);
    listener.(cursor := Some(out.cursor), trace := listener.trace + out.events)
  }

  /** The closure state as an object that owns a cursor object. */
  class ChatSubscription {
    var pending: seq<Notification>
    var cursor: ChatLiveCursor?
    var active: bool
    var overflowed: bool
    const limit: nat

    ghost predicate Valid()
      reads this, cursor
    {
      limit >= 1 && (cursor != null ==> cursor.maximumPending == limit) && (active ==> cursor != null)
    }

    ghost function Value(): Listener
      reads this, cursor
    {
      Listener(pending, if cursor == null then None else Some(cursor.State()), active, overflowed,
               if cursor == null then [] else cursor.emitted)
    }

    constructor (limit: nat)
      requires limit >= 1
      ensures Valid() && Value() == NewListener() && this.limit == limit && cursor == null
    {
      this.limit := limit;
      pending, cursor, active, overflowed := [], null, false, false;
    }

    method Notify(note: Notification)
      requires Valid()
      modifies this, cursor
      ensures Valid() && cursor == old(cursor)
      ensures Value() == Hear(limit, old(Value()), note)
      ensures active == old(active)
      ensures !active ==>
                && (overflowed <==> old(overflowed) || |old(pending)| >= limit)
                && pending == old(pending) + (if |old(pending)| < limit then [note] else [])
      ensures !active && cursor != null ==> cursor.State() == old(cursor.State()) && cursor.emitted == old(cursor.emitted)
      ensures active ==>
                var out := Accept(limit, old(cursor.State()), note);
                cursor.State() == out.cursor && cursor.emitted == old(cursor.emitted) + out.events && pending == old(pending)
    {
      if !active || cursor == null {
        if |pending| >= limit {
          overflowed := true;
          return;
        }
        pending := pending + [note];
        return;
      }
      cursor.Accept(note);
    }

    method CreateCursor(highWatermark: nat)
      requires Valid() && cursor == null
      modifies this
      ensures Valid() && cursor != null && fresh(cursor)
      ensures Value() == Synchronize(old(Value()), highWatermark)
    {
      cursor := new ChatLiveCursor(highWatermark, limit);
    }

    method ActivateLive()
      requires Valid() && cursor != null
      modifies this, cursor
      ensures Valid() && cursor == old(cursor)
      ensures Value() == Activate(limit, old(Value()))
      ensures active <==> old(active) || !old(overflowed)
      ensures active && !old(active) ==> pending == []
    {
      if active || overflowed { return; }
      active := true;
      ghost var start, before := cursor.State(), cursor.emitted;
      for i := 0 to |pending|
        invariant active && !overflowed && pending == old(pending) && cursor == old(cursor)
        invariant var out := Run(limit, start, Inputs(pending[..i]));
                  cursor.State() == out.cursor && cursor.emitted == before + out.events
      {
        assert Inputs(pending[..i + 1])[..i] == Inputs(pending[..i]);
        ghost var emitted := cursor.emitted;
        cursor.Accept(pending[i]);
        assert cursor.emitted == before + Run(limit, start, Inputs(pending[..i + 1])).events;
      }
      assert pending[..|pending|] == pending;
      pending := [];
    }
  }

  // ---------------------------------------------------------------------------------------------
  // The fan-out service and the world around it
  // ---------------------------------------------------------------------------------------------

  /** A registered listener. `registeredAt` counts the publications before `watch`, `start` is the
      watermark of its history page, and `inputs` remembers what it heard and advanced over. */
  datatype Registration = Registration(
    room: nat, registeredAt: nat, start: Option<nat>, inputs: seq<Input>, listener: Listener)

  datatype Fanout = Fanout(
    subscriptions: map<nat, set<nat>>, observedHeads: map<nat, nat>, registrations: map<nat, Registration>)

  /** `logs` are the committed streams, `published` what was handed to Redis, `poll` a watermark read
      whose result has not been applied yet. */
  datatype World = World(
    logs: map<nat, seq<ChatMessage>>, published: map<nat, seq<ChatMessage>>,
    poll: Option<seq<(nat, nat)>>, fanout: Fanout)

  function At(streams: map<nat, seq<ChatMessage>>, room: nat): seq<ChatMessage> {
    if room in streams then streams[room] else []
  }

  predicate Committed(logs: map<nat, seq<ChatMessage>>, room: nat, message: ChatMessage) {
    1 <= message.position <= |At(logs, room)| && At(logs, room)[message.position - 1] == message
  }

  predicate ObservedAlready(fanout: Fanout, room: nat, position: nat) {
    room in fanout.observedHeads && fanout.observedHeads[room] >= position
  }

  function ObserveHead(fanout: Fanout, room: nat, position: nat): Fanout {
    if ObservedAlready(fanout, room, position) then fanout
    else fanout.(observedHeads := fanout.observedHeads[room := position])
  }

  function HearRegistered(limit: nat, registration: Registration, note: Notification): Registration {
    registration.(inputs := registration.inputs + [Accepting(note)],
                  listener := Hear(limit, registration.listener, note))
  }

  predicate Watches(fanout: Fanout, room: nat, id: nat) {
    room in fanout.subscriptions && id in fanout.subscriptions[room]
  }

  function NotifyRoom(limit: nat, fanout: Fanout, room: nat, note: Notification): Fanout {
    fanout.(registrations := map id | id in fanout.registrations ::
      if Watches(fanout, room, id) then HearRegistered(limit, fanout.registrations[id], note)
      else fanout.registrations[id])
  }

  function Receive(limit: nat, fanout: Fanout, room: nat, message: ChatMessage): Fanout {
    NotifyRoom(limit, ObserveHead(fanout, room, message.position), room, MessageNote(message))
  }

  /** From `f` to `g` every listener of the room heard exactly this notification, and no other listener
      heard anything. */
  ghost predicate Told(f: Fanout, g: Fanout, room: nat, note: Notification) {
    && g.subscriptions == f.subscriptions && g.registrations.Keys == f.registrations.Keys
    && forall id <- f.registrations ::
         if Watches(f, room, id) then g.registrations[id].inputs == f.registrations[id].inputs + [Accepting(note)]
         else g.registrations[id] == f.registrations[id]
  }

  /** A received event is handed on as a message, whether or not the head rises. */
  lemma ReceiveTells(limit: nat, f: Fanout, room: nat, message: ChatMessage)
    ensures Told(f, Receive(limit, f, room, message), room, MessageNote(message))
  {
  }

  /** A polled head is handed on as a watermark, exactly when it rises. */
  lemma PollTells(limit: nat, f: Fanout, room: nat, head: nat)
    ensures var g := PollOne(limit, f, room, head);
            && (room in f.observedHeads && f.observedHeads[room] >= head ==> g == f)
            && (room !in f.observedHeads || f.observedHeads[room] < head ==>
                  Told(f, g, room, HighWatermark(head)) && g.observedHeads == f.observedHeads[room := head])
  {
  }

  /** What remains after a listener left. */
  lemma UnwatchExactly(f: Fanout, room: nat, id: nat)
    ensures var g := Unwatch(f, room, id);
            && g.registrations == f.registrations
            && (forall other, x :: Watches(g, other, x) <==> Watches(f, other, x) && !(other == room && x == id))
            && (room in f.subscriptions && (forall x :: !Watches(g, room, x)) ==>
                  room !in g.subscriptions && room !in g.observedHeads)
            && (forall other | other != room :: other in g.observedHeads <==> other in f.observedHeads)
  {
    var g := Unwatch(f, room, id);
    if room in f.subscriptions && f.subscriptions[room] - {id} != {} {
      var x :| x in f.subscriptions[room] - {id};
      assert Watches(g, room, x);
    } else if room in f.subscriptions {
      forall x <- f.subscriptions[room] ensures x == id {
        assert x !in f.subscriptions[room] - {id};
      }
    }
  }

  /** What Pub/Sub hands over: its size, and the meeting and message it parses to, if it does. */
  datatype Payload = Payload(bytes: nat, parsed: Option<(nat, ChatMessage)>)

  /** The message of a payload that is short enough, well formed and meant for the room. */
  function Validated(maxBytes: nat, room: nat, payload: Payload): Option<ChatMessage> {
    if payload.bytes > maxBytes || payload.parsed.None? || payload.parsed.value.0 != room then None
    else Some(payload.parsed.value.1)
  }

  function Concat(batches: seq<seq<nat>>): seq<nat> {
    if batches == [] then [] else Concat(batches[..|batches| - 1]) + batches[|batches| - 1]
  }

  function PollOne(limit: nat, fanout: Fanout, room: nat, head: nat): Fanout {
    if ObservedAlready(fanout, room, head) then fanout
    else NotifyRoom(limit, ObserveHead(fanout, room, head), room, HighWatermark(head))
  }

  function ApplyPoll(limit: nat, fanout: Fanout, heads: seq<(nat, nat)>): Fanout {
    if heads == [] then fanout
    else
      var before := ApplyPoll(limit, fanout, heads[..|heads| - 1]);
      PollOne(limit, before, heads[|heads| - 1].0, heads[|heads| - 1].1)
  }

  function Watch(fanout: Fanout, room: nat, id: nat, registeredAt: nat): Fanout {
    var others := if room in fanout.subscriptions then fanout.subscriptions[room] else {};
    fanout.(subscriptions := fanout.subscriptions[room := others + {id}],
            registrations := fanout.registrations[id := Registration(room, registeredAt, None, [], NewListener())])
  }

  function Unwatch(fanout: Fanout, room: nat, id: nat): Fanout {
    if room !in fanout.subscriptions then fanout
    else
      var rest := fanout.subscriptions[room] - {id};
      if rest != {} then fanout.(subscriptions := fanout.subscriptions[room := rest])
      else fanout.(subscriptions := fanout.subscriptions - {room}, observedHeads := fanout.observedHeads - {room})
  }

  /** The service object. Listeners are values here, because each call of one touches nothing else. */
  class ChatFanoutService {
    var subscriptions: map<nat, set<nat>>
    var observedHeads: map<nat, nat>
    var registrations: map<nat, Registration>
    var watermarkPollRunning: bool
    const limit: nat

    ghost function State(): Fanout
      reads this
    {
      Fanout(subscriptions, observedHeads, registrations)
    }

    /** Every listener in a room's set is registered. */
    ghost predicate Valid()
      reads this
    {
      forall room <- subscriptions :: subscriptions[room] <= registrations.Keys
    }

    constructor (limit: nat)
      ensures State() == Fanout(map[], map[], map[]) && Valid() && !watermarkPollRunning && this.limit == limit
    {
      this.limit := limit;
      subscriptions, observedHeads, registrations, watermarkPollRunning := map[], map[], map[], false;
    }

    method AddListener(room: nat, id: nat, registeredAt: nat)
      requires Valid() && id !in registrations
      modifies this`subscriptions, this`registrations
      ensures Valid() && State() == Watch(old(State()), room, id, registeredAt)
      ensures forall other, x :: Watches(State(), other, x) <==> Watches(old(State()), other, x) || (other == room && x == id)
      ensures registrations[id] == Registration(room, registeredAt, None, [], NewListener())
      ensures forall x <- old(registrations) :: registrations[x] == old(registrations)[x]
    {
      if room in subscriptions {
        subscriptions := subscriptions[room := subscriptions[room] + {id}];
      } else {
        ghost var nobody: set<nat> := {};
        assert nobody + {id} == {id};
        subscriptions := subscriptions[room := {id}];
      }
      registrations := registrations[id := Registration(room, registeredAt, None, [], NewListener())];
    }

    method RemoveListener(room: nat, id: nat)
      requires Valid()
      modifies this`subscriptions, this`observedHeads
      ensures Valid() && State() == Unwatch(old(State()), room, id)
      ensures forall other, x ::
                Watches(State(), other, x) <==> Watches(old(State()), other, x) && !(other == room && x == id)
      ensures room in old(subscriptions) && (forall x :: !Watches(State(), room, x)) ==>
                room !in subscriptions && room !in observedHeads
      ensures forall other | other != room :: other in observedHeads <==> other in old(observedHeads)
    {
      UnwatchExactly(State(), room, id);
      DropListener(room, id);
    }

    method DropListener(room: nat, id: nat)
      requires Valid()
      modifies this`subscriptions, this`observedHeads
      ensures Valid() && State() == Unwatch(old(State()), room, id)
    {
      if room !in subscriptions { return; }
      var rest := subscriptions[room] - {id};
      subscriptions := subscriptions[room := rest];
      if |rest| > 0 { return; }
      subscriptions := subscriptions - {room};
      observedHeads := observedHeads - {room};
      assert subscriptions == old(subscriptions) - {room};
    }

    method ObservePosition(room: nat, position: nat) returns (advanced: bool)
      modifies this`observedHeads
      ensures State() == ObserveHead(old(State()), room, position)
      ensures advanced <==> room !in old(observedHeads) || old(observedHeads)[room] < position
      ensures room in observedHeads && observedHeads[room] >= position
      ensures observedHeads == if advanced then old(observedHeads)[room := position] else old(observedHeads)
    {
      if room in observedHeads && observedHeads[room] >= position { return false; }
      observedHeads := observedHeads[room := position];
      return true;
    }

    method NotifyListeners(room: nat, note: Notification)
      requires Valid()
      modifies this`registrations
      ensures Valid() && State() == NotifyRoom(limit, old(State()), room, note)
      ensures Told(old(State()), State(), room, note)
    {
      if room !in subscriptions { return; }
      var waiting := subscriptions[room];
      ghost var before := registrations;
      while waiting != {}
        invariant waiting <= subscriptions[room] && Valid()
        invariant registrations.Keys == before.Keys
        invariant forall id <- before ::
          registrations[id] ==
            if id in subscriptions[room] - waiting then HearRegistered(limit, before[id], note) else before[id]
        decreases |waiting|
      {
        var id :| id in waiting;
        waiting := waiting - {id};
        registrations := registrations[id := HearRegistered(limit, registrations[id], note)];
      }
    }

    /** The subscription's callback; a payload that does not validate is dropped. */
    method ReceivePayload(room: nat, payload: Payload, maxBytes: nat)
      requires Valid()
      modifies this`observedHeads, this`registrations
      ensures Valid()
      ensures var message := Validated(maxBytes, room, payload);
              State() == if message.None? then old(State()) else Receive(limit, old(State()), room, message.value)
      ensures payload.bytes <= maxBytes && payload.parsed.Some? && payload.parsed.value.0 == room ==>
                var message := payload.parsed.value.1;
                && Told(old(State()), State(), room, MessageNote(message))
                && room in observedHeads && observedHeads[room] >= message.position
      ensures payload.bytes > maxBytes || payload.parsed.None? || payload.parsed.value.0 != room ==> State() == old(State())
    {
      if payload.bytes > maxBytes { return; }
      if payload.parsed.None? { return; }
      var (meeting, message) := payload.parsed.value;
      if meeting != room { return; }
      var _ := ObservePosition(room, message.position);
      NotifyListeners(room, MessageNote(message));
    }

    // The poll is asynchronous: it starts, applies the heads of one batch after each answer of the
    // database, and finishes after the last batch or a failed read. Anything may happen in between.

    /** A poll starts unless one is running or there is no room; its batches of at most 1000 name every
        subscribed room exactly once. */
    method StartPoll() returns (started: bool, batches: seq<seq<nat>>)
      requires Valid()
      modifies this`watermarkPollRunning
      ensures Valid() && State() == old(State())
      ensures started <==> !old(watermarkPollRunning) && subscriptions != map[]
      ensures watermarkPollRunning == (started || old(watermarkPollRunning))
      ensures !started ==> batches == []
      ensures started ==> Distinct(Concat(batches)) && Elements(Concat(batches)) == subscriptions.Keys
      ensures forall i | 0 <= i < |batches| :: 1 <= |batches[i]| <= 1_000
    {
      started, batches := false, [];
      if watermarkPollRunning || |subscriptions| == 0 { return; }
      watermarkPollRunning, started := true, true;
      var ranks: Ranks := map room | room in subscriptions :: (0, 0);
      assert ranks.Keys == subscriptions.Keys;
      var rooms := First(ranks, |subscriptions|);
      FirstCounts(ranks, |subscriptions|, rooms);
      batches := Batches(rooms);
    }

    /** The heads one batch was answered with. */
    method ApplyBatch(heads: seq<(nat, nat)>)
      requires Valid()
      modifies this`observedHeads, this`registrations
      ensures Valid() && State() == ApplyPoll(limit, old(State()), heads)
    {
      for i := 0 to |heads|
        invariant Valid()
        invariant State() == ApplyPoll(limit, old(State()), heads[..i])
      {
        assert heads[..i + 1][..i] == heads[..i];
        var advanced := ObservePosition(heads[i].0, heads[i].1);
        if advanced { NotifyListeners(heads[i].0, HighWatermark(heads[i].1)); }
      }
      assert heads[..|heads|] == heads;
    }

    method FinishPoll()
      requires Valid()
      modifies this`watermarkPollRunning
      ensures Valid() && State() == old(State()) && !watermarkPollRunning
    {
      watermarkPollRunning := false;
    }
  }

  /** Slices of at most 1000. */
  method Batches(rooms: seq<nat>) returns (batches: seq<seq<nat>>)
    ensures Concat(batches) == rooms
    ensures forall i | 0 <= i < |batches| :: 1 <= |batches[i]| <= 1_000
  {
    batches := [];
    var offset := 0;
    while offset < |rooms|
      invariant 0 <= offset <= |rooms|
      invariant Concat(batches) == rooms[..offset]
      invariant forall i | 0 <= i < |batches| :: 1 <= |batches[i]| <= 1_000
      decreases |rooms| - offset
    {
      var end := if offset + 1_000 < |rooms| then offset + 1_000 else |rooms|;
      ghost var before := batches;
      batches := batches + [rooms[offset..end]];
      assert batches[..|batches| - 1] == before;
      assert rooms[..end] == rooms[..offset] + rooms[offset..end];
      offset := end;
    }
    assert rooms[..offset] == rooms;
  }

  datatype Step =
    | CommitMessage(room: nat, message: ChatMessage)
    | PublishMessage(room: nat, message: ChatMessage)
    | ReceiveMessage(room: nat, message: ChatMessage)
    | ReadHeads(rooms: seq<nat>)
    | ApplyHeads
    | LosePoll
    | WatchRoom(id: nat, room: nat)
    | ReadPage(id: nat)
    | StartCursor(id: nat)
    | ActivateCursor(id: nat)
    | AdvanceCursor(id: nat, position: nat)
    | UnwatchRoom(id: nat)

  ghost predicate Enabled(w: World, step: Step) {
    match step
    case CommitMessage(room, message) => message.position == |At(w.logs, room)| + 1
    case PublishMessage(room, message) => Committed(w.logs, room, message)
    case ReceiveMessage(room, message) => message in At(w.published, room)
    case ReadHeads(_) => w.poll.None?
    case ApplyHeads | LosePoll => w.poll.Some?
    case WatchRoom(id, _) => id !in w.fanout.registrations
    case ReadPage(id) => id in w.fanout.registrations && w.fanout.registrations[id].start.None?
    case StartCursor(id) =>
      && id in w.fanout.registrations
      && w.fanout.registrations[id].start.Some?
      && w.fanout.registrations[id].listener.cursor.None?
    case ActivateCursor(id) => id in w.fanout.registrations && w.fanout.registrations[id].listener.cursor.Some?
    case AdvanceCursor(id, position) =>
      && id in w.fanout.registrations
      && position <= |At(w.logs, w.fanout.registrations[id].room)|
      && w.fanout.registrations[id].listener.cursor.Some?
      && (w.fanout.registrations[id].listener.active || w.fanout.registrations[id].listener.overflowed)
    case UnwatchRoom(id) => id in w.fanout.registrations
  }

  function Replace(w: World, id: nat, registration: Registration): World {
    w.(fanout := w.fanout.(registrations := w.fanout.registrations[id := registration]))
  }

  function Apply(limit: nat, w: World, step: Step): World
    requires Enabled(w, step)
  {
    match step
    case CommitMessage(room, message) => w.(logs := w.logs[room := At(w.logs, room) + [message]])
    case PublishMessage(room, message) => w.(published := w.published[room := At(w.published, room) + [message]])
    case ReceiveMessage(room, message) => w.(fanout := Receive(limit, w.fanout, room, message))
    case ReadHeads(rooms) =>
      w.(poll := Some(seq(|rooms|, i requires 0 <= i < |rooms| => (rooms[i], |At(w.logs, rooms[i])|))))
    case ApplyHeads => w.(poll := None, fanout := ApplyPoll(limit, w.fanout, w.poll.value))
    case LosePoll => w.(poll := None)
    case WatchRoom(id, room) => w.(fanout := Watch(w.fanout, room, id, |At(w.published, room)|))
    case ReadPage(id) =>
      var r := w.fanout.registrations[id];
      Replace(w, id, r.(start := Some(|At(w.logs, r.room)|)))
    case StartCursor(id) =>
      var r := w.fanout.registrations[id];
      Replace(w, id, r.(listener := Synchronize(r.listener, r.start.value)))
    case ActivateCursor(id) =>
      var r := w.fanout.registrations[id];
      Replace(w, id, r.(listener := Activate(limit, r.listener)))
    case AdvanceCursor(id, position) =>
      var r := w.fanout.registrations[id];
      Replace(w, id, r.(inputs := r.inputs + [Advancing(position)], listener := AdvanceListener(r.listener, position)))
    case UnwatchRoom(id) => w.(fanout := Unwatch(w.fanout, w.fanout.registrations[id].room, id))
  }

  // ---------------------------------------------------------------------------------------------
  // Coverage of a position
  // ---------------------------------------------------------------------------------------------

  ghost predicate GapAtLeast(trace: seq<Event>, position: nat) {
    exists i :: 0 <= i < |trace| && trace[i].Gap? && trace[i].highWatermark >= position
  }

  /** The socket stands at or past `position`, was told of a gap reaching it, or must resynchronize. */
  ghost predicate Reached(cursor: Cursor, trace: seq<Event>, position: nat) {
    cursor.position >= position || cursor.overflowed || GapAtLeast(trace, position)
  }

  lemma AcceptReaches(limit: nat, cursor: Cursor, note: Notification)
    requires Valid(limit, cursor)
    ensures var out := Accept(limit, cursor, note); Reached(out.cursor, out.events, NotePosition(note))
  {
    var out := Accept(limit, cursor, note);
    if cursor.overflowed {
    } else if note.HighWatermark? {
      if note.position > cursor.position { assert out.events[0] == Gap(note.position); }
    } else if note.message.position > cursor.position && !out.cursor.overflowed {
      var pending := cursor.pending[note.message.position := note.message];
      FlushDelivers(cursor.position, pending);
      var flushed := Flush(cursor.position, pending);
      if flushed.cursor.position < note.message.position {
        assert note.message.position in flushed.cursor.pending;
        assert out.events[|flushed.events|] == Gap(Highest(flushed.cursor.pending.Keys));
      }
    }
  }

  /** What was reached stays reached. */
  lemma StillReached(limit: nat, cursor: Cursor, input: Input, trace: seq<Event>, position: nat)
    requires Valid(limit, cursor) && Reached(cursor, trace, position)
    ensures var out := Call(limit, cursor, input); Reached(out.cursor, trace + out.events, position)
  {
    CallSafe(limit, cursor, input);
    var out := Call(limit, cursor, input);
    if GapAtLeast(trace, position) {
      var i :| 0 <= i < |trace| && trace[i].Gap? && trace[i].highWatermark >= position;
      assert (trace + out.events)[i] == trace[i];
    }
  }

  lemma GapLower(trace: seq<Event>, high: nat, low: nat)
    requires low <= high
    ensures GapAtLeast(trace, high) ==> GapAtLeast(trace, low)
  {
  }

  lemma GapAfter(first: seq<Event>, second: seq<Event>, position: nat)
    ensures GapAtLeast(second, position) ==> GapAtLeast(first + second, position)
  {
    if GapAtLeast(second, position) {
      var i :| 0 <= i < |second| && second[i].Gap? && second[i].highWatermark >= position;
      assert (first + second)[|first| + i] == second[i];
    }
  }

  lemma {:induction false} FeedReaches(limit: nat, start: nat, notes: seq<Notification>, k: nat)
    requires k < |notes|
    ensures var out := Feed(limit, start, notes); Reached(out.cursor, out.events, NotePosition(notes[k]))
  {
    var last := |notes| - 1;
    var init := notes[..last];
    assert Inputs(notes)[..last] == Inputs(init);
    CursorSafety(limit, start, Inputs(init));
    var before := Feed(limit, start, init);
    if k < last {
      FeedReaches(limit, start, init, k);
      StillReached(limit, before.cursor, Accepting(notes[last]), before.events, NotePosition(notes[k]));
    } else {
      AcceptReaches(limit, before.cursor, notes[last]);
      GapAfter(before.events, Accept(limit, before.cursor, notes[last]).events, NotePosition(notes[k]));
    }
  }

  // ---------------------------------------------------------------------------------------------
  // The invariant
  // ---------------------------------------------------------------------------------------------

  /** The handover: once active, the listener is a cursor started at its page's watermark and fed
      everything since `watch`; before that it has called nothing back and buffers everything. */
  ghost predicate Seamless(limit: nat, r: Registration) {
    var l := r.listener;
    && (l.cursor.Some? ==> r.start.Some?)
    && (l.active ==>
          && l.cursor.Some? && !l.overflowed && l.pending == []
          && Outcome(l.cursor.value, l.trace) == Run(limit, Fresh(r.start.value), r.inputs))
    && (!l.active && !l.overflowed ==>
          && l.trace == []
          && (l.cursor.Some? ==> l.cursor.value == Fresh(r.start.value))
          && r.inputs == Inputs(l.pending))
  }

  /** Every message heard is committed in the room, no page led past its head, and the first page's
      watermark was its head. */
  ghost predicate HeardCommitted(logs: map<nat, seq<ChatMessage>>, r: Registration) {
    && (r.start.Some? ==> r.start.value <= |At(logs, r.room)|)
    && forall i | 0 <= i < |r.inputs| :: InputCommitted(logs, r.room, r.inputs[i])
  }

  predicate InputCommitted(logs: map<nat, seq<ChatMessage>>, room: nat, input: Input) {
    match input
    case Accepting(note) => note.MessageNote? ==> Committed(logs, room, note.message)
    case Advancing(position) => position <= |At(logs, room)|
  }

  /** Whatever was published before `watch` lies at or below the page's watermark. */
  ghost predicate CoversEarlier(published: seq<ChatMessage>, r: Registration) {
    && r.registeredAt <= |published|
    && (r.start.Some? ==> forall k | 0 <= k < r.registeredAt :: published[k].position <= r.start.value)
  }

  /** The listener has dealt with `position`, will deal with it on activation, or has yet to read
      its page. */
  ghost predicate Covered(r: Registration, position: nat) {
    var l := r.listener;
    if r.start.None? then true
    else if l.active then l.cursor.Some? && Reached(l.cursor.value, l.trace, position)
    else
      || l.overflowed
      || r.start.value >= position
      || exists i :: 0 <= i < |l.pending| && NotePosition(l.pending[i]) >= position
  }

  ghost predicate LogsSound(logs: map<nat, seq<ChatMessage>>) {
    forall room, i | 0 <= i < |At(logs, room)| :: At(logs, room)[i].position == i + 1
  }

  ghost predicate PublishedSound(logs: map<nat, seq<ChatMessage>>, published: map<nat, seq<ChatMessage>>) {
    forall room, message | message in At(published, room) :: Committed(logs, room, message)
  }

  ghost predicate PollSound(logs: map<nat, seq<ChatMessage>>, poll: Option<seq<(nat, nat)>>) {
    poll.Some? ==> forall head <- poll.value :: head.1 <= |At(logs, head.0)|
  }

  ghost predicate RegistrationSound(limit: nat, logs: map<nat, seq<ChatMessage>>,
                                    published: map<nat, seq<ChatMessage>>, r: Registration) {
    && Seamless(limit, r)
    && HeardCommitted(logs, r)
    && CoversEarlier(At(published, r.room), r)
  }

  ghost predicate FanoutSound(limit: nat, logs: map<nat, seq<ChatMessage>>,
                              published: map<nat, seq<ChatMessage>>, f: Fanout) {
    && (forall room <- f.observedHeads :: f.observedHeads[room] <= |At(logs, room)|)
    && (forall id <- f.registrations :: RegistrationSound(limit, logs, published, f.registrations[id]))
    && (forall room, id | Watches(f, room, id) :: id in f.registrations && f.registrations[id].room == room)
    && (forall room, id | room in f.observedHeads && Watches(f, room, id) ::
          Covered(f.registrations[id], f.observedHeads[room]))
  }

  ghost predicate Inv(limit: nat, w: World) {
    && LogsSound(w.logs)
    && PublishedSound(w.logs, w.published)
    && PollSound(w.logs, w.poll)
    && FanoutSound(limit, w.logs, w.published, w.fanout)
  }

  // One listener

  lemma HearKeeps(limit: nat, logs: map<nat, seq<ChatMessage>>, published: map<nat, seq<ChatMessage>>,
                  r: Registration, note: Notification)
    requires RegistrationSound(limit, logs, published, r)
    requires note.MessageNote? ==> Committed(logs, r.room, note.message)
    ensures RegistrationSound(limit, logs, published, HearRegistered(limit, r, note))
  {
    var t := HearRegistered(limit, r, note);
    assert t.inputs[..|t.inputs| - 1] == r.inputs;
    if !r.listener.active && |r.listener.pending| < limit && !r.listener.overflowed {
      InputsConcat(r.listener.pending, [note]);
      assert Inputs([note]) == [Accepting(note)];
    }
  }

  lemma HearCovers(limit: nat, r: Registration, note: Notification, earlier: nat)
    requires Seamless(limit, r)
    requires Covered(r, earlier) || earlier <= NotePosition(note)
    ensures Covered(HearRegistered(limit, r, note), earlier)
  {
    var l := r.listener;
    var t := Hear(limit, l, note);
    if r.start.None? {
    } else if l.active {
      var cursor := l.cursor.value;
      CursorSafety(limit, r.start.value, r.inputs);
      if Covered(r, earlier) {
        StillReached(limit, cursor, Accepting(note), l.trace, earlier);
      } else {
        AcceptReaches(limit, cursor, note);
        GapLower(Accept(limit, cursor, note).events, NotePosition(note), earlier);
        GapAfter(l.trace, Accept(limit, cursor, note).events, earlier);
      }
    } else if |l.pending| < limit {
      if i :| 0 <= i < |l.pending| && NotePosition(l.pending[i]) >= earlier {
        assert t.pending[i] == l.pending[i];
      }
      assert t.pending[|l.pending|] == note;
    }
  }

  lemma ActivateKeeps(limit: nat, r: Registration, position: nat)
    requires Seamless(limit, r) && r.listener.cursor.Some?
    ensures Seamless(limit, r.(listener := Activate(limit, r.listener)))
    ensures Covered(r, position) ==> Covered(r.(listener := Activate(limit, r.listener)), position)
  {
    var l := r.listener;
    if !l.active && !l.overflowed && Covered(r, position) {
      var out := Feed(limit, r.start.value, l.pending);
      CursorSafety(limit, r.start.value, Inputs(l.pending));
      if i :| 0 <= i < |l.pending| && NotePosition(l.pending[i]) >= position {
        FeedReaches(limit, r.start.value, l.pending, i);
        GapLower(out.events, NotePosition(l.pending[i]), position);
      }
      assert [] + out.events == out.events;
    }
  }

  lemma AdvanceKeeps(limit: nat, r: Registration, next: nat, position: nat)
    requires Seamless(limit, r) && r.listener.cursor.Some? && (r.listener.active || r.listener.overflowed)
    ensures var t := r.(inputs := r.inputs + [Advancing(next)], listener := AdvanceListener(r.listener, next));
            Seamless(limit, t) && (Covered(r, position) ==> Covered(t, position))
  {
    CursorSafety(limit, r.start.value, r.inputs);
    var inputs := r.inputs + [Advancing(next)];
    assert inputs[..|inputs| - 1] == r.inputs;
    if r.listener.active && Covered(r, position) {
      StillReached(limit, r.listener.cursor.value, Advancing(next), r.listener.trace, position);
    }
  }

  // The fan-out service

  lemma NotifyCovers(limit: nat, logs: map<nat, seq<ChatMessage>>, published: map<nat, seq<ChatMessage>>,
                     f: Fanout, room: nat, note: Notification, other: nat, id: nat)
    requires FanoutSound(limit, logs, published, f) && Watches(f, other, id)
    requires var observed := ObserveHead(f, room, NotePosition(note)); other in observed.observedHeads
    ensures var g := NotifyRoom(limit, ObserveHead(f, room, NotePosition(note)), room, note);
            && id in g.registrations && g.registrations[id].room == other
            && Covered(g.registrations[id], g.observedHeads[other])
  {
    var heads := ObserveHead(f, room, NotePosition(note)).observedHeads;
    if other == room {
      HearCovers(limit, f.registrations[id], note, heads[room]);
    } else {
      assert f.registrations[id].room == other;
      assert !Watches(f, room, id);
    }
  }

  lemma NotifyOne(limit: nat, logs: map<nat, seq<ChatMessage>>, published: map<nat, seq<ChatMessage>>,
                  f: Fanout, room: nat, note: Notification, id: nat)
    requires FanoutSound(limit, logs, published, f) && id in f.registrations
    requires note.MessageNote? ==> Committed(logs, room, note.message)
    ensures RegistrationSound(limit, logs, published, NotifyRoom(limit, f, room, note).registrations[id])
  {
    if Watches(f, room, id) { HearKeeps(limit, logs, published, f.registrations[id], note); }
  }

  lemma NotifyKeeps(limit: nat, logs: map<nat, seq<ChatMessage>>, published: map<nat, seq<ChatMessage>>,
                    f: Fanout, room: nat, note: Notification)
    requires FanoutSound(limit, logs, published, f)
    requires note.MessageNote? ==> Committed(logs, room, note.message)
    requires NotePosition(note) <= |At(logs, room)|
    ensures FanoutSound(limit, logs, published,
                        NotifyRoom(limit, ObserveHead(f, room, NotePosition(note)), room, note))
  {
    var g := NotifyRoom(limit, ObserveHead(f, room, NotePosition(note)), room, note);
    assert g.registrations == NotifyRoom(limit, f, room, note).registrations && g.subscriptions == f.subscriptions;
    forall id <- g.registrations ensures RegistrationSound(limit, logs, published, g.registrations[id]) {
      NotifyOne(limit, logs, published, f, room, note, id);
    }
    forall other, id | Watches(g, other, id)
      ensures id in g.registrations && g.registrations[id].room == other
      ensures other in g.observedHeads ==> Covered(g.registrations[id], g.observedHeads[other])
    {
      assert Watches(f, other, id);
      if other in g.observedHeads { NotifyCovers(limit, logs, published, f, room, note, other, id); }
    }
  }

  lemma {:induction false} PollKeeps(limit: nat, logs: map<nat, seq<ChatMessage>>,
                                     published: map<nat, seq<ChatMessage>>, f: Fanout, heads: seq<(nat, nat)>)
    requires FanoutSound(limit, logs, published, f)
    requires forall head <- heads :: head.1 <= |At(logs, head.0)|
    ensures FanoutSound(limit, logs, published, ApplyPoll(limit, f, heads))
    ensures forall head <- heads :: ObservedAlready(ApplyPoll(limit, f, heads), head.0, head.1)
    ensures ApplyPoll(limit, f, heads).subscriptions == f.subscriptions
    decreases |heads|
  {
    if heads != [] {
      var init, last := heads[..|heads| - 1], heads[|heads| - 1];
      PollKeeps(limit, logs, published, f, init);
      var before := ApplyPoll(limit, f, init);
      assert last in heads;
      if !ObservedAlready(before, last.0, last.1) {
        NotifyKeeps(limit, logs, published, before, last.0, HighWatermark(last.1));
      }
      assert heads == init + [last];
    }
  }

  lemma CommitKeeps(limit: nat, w: World, room: nat, message: ChatMessage)
    requires Inv(limit, w) && message.position == |At(w.logs, room)| + 1
    ensures Inv(limit, Apply(limit, w, CommitMessage(room, message)))
  {
    var t := Apply(limit, w, CommitMessage(room, message));
    assert forall other | other != room :: At(t.logs, other) == At(w.logs, other);
    forall other, m | Committed(w.logs, other, m) ensures Committed(t.logs, other, m) {}
    forall id <- t.fanout.registrations
      ensures RegistrationSound(limit, t.logs, t.published, t.fanout.registrations[id])
    {
      assert RegistrationSound(limit, w.logs, w.published, w.fanout.registrations[id]);
    }
  }

  lemma PublishKeeps(limit: nat, w: World, room: nat, message: ChatMessage)
    requires Inv(limit, w) && Committed(w.logs, room, message)
    ensures Inv(limit, Apply(limit, w, PublishMessage(room, message)))
  {
    var t := Apply(limit, w, PublishMessage(room, message));
    assert forall other | other != room :: At(t.published, other) == At(w.published, other);
    forall id <- t.fanout.registrations
      ensures RegistrationSound(limit, t.logs, t.published, t.fanout.registrations[id])
    {
      assert RegistrationSound(limit, w.logs, w.published, w.fanout.registrations[id]);
    }
  }

  lemma WatchKeeps(limit: nat, w: World, id: nat, room: nat)
    requires Inv(limit, w) && id !in w.fanout.registrations
    ensures Inv(limit, Apply(limit, w, WatchRoom(id, room)))
  {
    var t := Apply(limit, w, WatchRoom(id, room));
    var r := t.fanout.registrations[id];
    assert RegistrationSound(limit, t.logs, t.published, r);
    forall other, x | Watches(t.fanout, other, x)
      ensures x in t.fanout.registrations && t.fanout.registrations[x].room == other
      ensures (other == room && x == id) || (x != id && Watches(w.fanout, other, x))
    {
      if Watches(w.fanout, other, x) { assert x in w.fanout.registrations; }
    }
  }

  lemma UnwatchKeeps(limit: nat, w: World, id: nat)
    requires Inv(limit, w) && id in w.fanout.registrations
    ensures Inv(limit, Apply(limit, w, UnwatchRoom(id)))
  {
    var t := Apply(limit, w, UnwatchRoom(id));
    assert forall room, x | Watches(t.fanout, room, x) :: Watches(w.fanout, room, x);
  }

  /** Replacing one registration by a sound one that covers no less keeps the fan-out sound. */
  lemma ReplaceKeeps(limit: nat, w: World, id: nat, r: Registration)
    requires Inv(limit, w) && id in w.fanout.registrations
    requires r.room == w.fanout.registrations[id].room
    requires RegistrationSound(limit, w.logs, w.published, r)
    requires r.room in w.fanout.observedHeads && Watches(w.fanout, r.room, id) ==>
               Covered(r, w.fanout.observedHeads[r.room])
    ensures Inv(limit, Replace(w, id, r))
  {
    var t := Replace(w, id, r);
    forall room, x | Watches(t.fanout, room, x)
      ensures x in t.fanout.registrations && t.fanout.registrations[x].room == room
      ensures room in t.fanout.observedHeads ==>
                Covered(t.fanout.registrations[x], t.fanout.observedHeads[room])
    {
      assert Watches(w.fanout, room, x);
    }
  }

  lemma ReadPageKeeps(limit: nat, w: World, id: nat)
    requires Inv(limit, w) && Enabled(w, ReadPage(id))
    ensures Inv(limit, Apply(limit, w, ReadPage(id)))
  {
    var r := w.fanout.registrations[id];
    var head := |At(w.logs, r.room)|;
    assert RegistrationSound(limit, w.logs, w.published, r);
    forall k | 0 <= k < r.registeredAt ensures At(w.published, r.room)[k].position <= head {
      assert Committed(w.logs, r.room, At(w.published, r.room)[k]);
    }
    ReplaceKeeps(limit, w, id, r.(start := Some(head)));
  }

  ghost function ObservedIn(w: World, room: nat): nat {
    if room in w.fanout.observedHeads then w.fanout.observedHeads[room] else 0
  }

  lemma StartCursorKeeps(limit: nat, w: World, id: nat)
    requires Inv(limit, w) && Enabled(w, StartCursor(id))
    ensures Inv(limit, Apply(limit, w, StartCursor(id)))
  {
    var r := w.fanout.registrations[id];
    assert RegistrationSound(limit, w.logs, w.published, r);
    ReplaceKeeps(limit, w, id, r.(listener := Synchronize(r.listener, r.start.value)));
  }

  lemma ActivateCursorKeeps(limit: nat, w: World, id: nat)
    requires Inv(limit, w) && Enabled(w, ActivateCursor(id))
    ensures Inv(limit, Apply(limit, w, ActivateCursor(id)))
  {
    var r := w.fanout.registrations[id];
    assert RegistrationSound(limit, w.logs, w.published, r);
    ActivateKeeps(limit, r, ObservedIn(w, r.room));
    ReplaceKeeps(limit, w, id, r.(listener := Activate(limit, r.listener)));
  }

  lemma AdvanceCursorKeeps(limit: nat, w: World, id: nat, position: nat)
    requires Inv(limit, w) && Enabled(w, AdvanceCursor(id, position))
    ensures Inv(limit, Apply(limit, w, AdvanceCursor(id, position)))
  {
    var r := w.fanout.registrations[id];
    assert RegistrationSound(limit, w.logs, w.published, r);
    AdvanceKeeps(limit, r, position, ObservedIn(w, r.room));
    var t := r.(inputs := r.inputs + [Advancing(position)], listener := AdvanceListener(r.listener, position));
    assert forall i | 0 <= i < |r.inputs| :: t.inputs[i] == r.inputs[i];
    ReplaceKeeps(limit, w, id, t);
  }

  lemma StepKeepsInv(limit: nat, w: World, step: Step)
    requires Inv(limit, w) && Enabled(w, step)
    ensures Inv(limit, Apply(limit, w, step))
  {
    match step {
      case CommitMessage(room, message) => CommitKeeps(limit, w, room, message);
      case PublishMessage(room, message) => PublishKeeps(limit, w, room, message);
      case ReceiveMessage(room, message) =>
        assert Committed(w.logs, room, message);
        NotifyKeeps(limit, w.logs, w.published, w.fanout, room, MessageNote(message));
      case ReadHeads(rooms) =>
      case ApplyHeads => PollKeeps(limit, w.logs, w.published, w.fanout, w.poll.value);
      case LosePoll =>
      case WatchRoom(id, room) => WatchKeeps(limit, w, id, room);
      case UnwatchRoom(id) => UnwatchKeeps(limit, w, id);
      case ReadPage(id) => ReadPageKeeps(limit, w, id);
      case StartCursor(id) => StartCursorKeeps(limit, w, id);
      case ActivateCursor(id) => ActivateCursorKeeps(limit, w, id);
      case AdvanceCursor(id, position) => AdvanceCursorKeeps(limit, w, id, position);
    }
  }

  // ---------------------------------------------------------------------------------------------
  // Theorems over every run
  // ---------------------------------------------------------------------------------------------

  function Initial(): World {
    World(map[], map[], None, Fanout(map[], map[], map[]))
  }

  ghost predicate Next(limit: nat, w: World, v: World) {
    exists step :: Enabled(w, step) && v == Apply(limit, w, step)
  }

  /** `states` is a run of the live path that starts with nothing committed and nobody connected. */
  ghost predicate IsLiveRun(limit: nat, states: seq<World>) {
    IsRun((w: World, v: World) => Next(limit, w, v), states) && states[0] == Initial()
  }

  lemma RunsKeepInv(limit: nat, states: seq<World>)
    requires IsLiveRun(limit, states)
    ensures forall i | 0 <= i < |states| :: Inv(limit, states[i])
  {
    var inv := (w: World) => Inv(limit, w);
    var next := (w: World, v: World) => Next(limit, w, v);
    forall w, v | inv(w) && next(w, v) ensures inv(v) {
      var step :| Enabled(w, step) && v == Apply(limit, w, step);
      StepKeepsInv(limit, w, step);
    }
    assert inv(states[0]);
    Invariance(inv, next, states);
    forall i | 0 <= i < |states| ensures Inv(limit, states[i]) { assert inv(states[i]); }
  }

  /** No silent gap: when a poll that read head `h` of a room has been applied, every active listener
      of the room stands at or past `h`, was told of a gap reaching `h`, or has overflowed. */
  lemma NoSilentGap(limit: nat, states: seq<World>, i: nat, id: nat, head: (nat, nat))
    requires IsLiveRun(limit, states) && i < |states|
    requires states[i].poll.Some? && head in states[i].poll.value
    requires Watches(states[i].fanout, head.0, id)
    ensures var fanout := Apply(limit, states[i], ApplyHeads).fanout;
            && id in fanout.registrations
            && var listener := fanout.registrations[id].listener;
               listener.active ==>
                 listener.cursor.Some? && Reached(listener.cursor.value, listener.trace, head.1)
  {
    RunsKeepInv(limit, states);
    var w := states[i];
    assert Inv(limit, w);
    PollKeeps(limit, w.logs, w.published, w.fanout, w.poll.value);
    var fanout := Apply(limit, w, ApplyHeads).fanout;
    assert Watches(fanout, head.0, id) && ObservedAlready(fanout, head.0, head.1);
    var listener := fanout.registrations[id].listener;
    assert RegistrationSound(limit, w.logs, w.published, fanout.registrations[id]);
    assert Covered(fanout.registrations[id], fanout.observedHeads[head.0]);
    GapLower(listener.trace, fanout.observedHeads[head.0], head.1);
  }

  /** Subscribe, then read: an activated listener is indistinguishable from a cursor started at the
      page's watermark and fed every notification since `watch`, and every message published before
      `watch` lies at or below that watermark. */
  lemma HandoverIsSeamless(limit: nat, states: seq<World>, i: nat, id: nat)
    requires IsLiveRun(limit, states) && i < |states|
    requires id in states[i].fanout.registrations && states[i].fanout.registrations[id].listener.active
    ensures var r := states[i].fanout.registrations[id];
            && r.start.Some? && r.listener.cursor.Some?
            && Outcome(r.listener.cursor.value, r.listener.trace) == Run(limit, Fresh(r.start.value), r.inputs)
            && r.registeredAt <= |At(states[i].published, r.room)|
            && forall k | 0 <= k < r.registeredAt ::
                 At(states[i].published, r.room)[k].position <= r.start.value
  {
    RunsKeepInv(limit, states);
    assert Inv(limit, states[i]);
    var r := states[i].fanout.registrations[id];
    assert RegistrationSound(limit, states[i].logs, states[i].published, r);
  }

  function EventAt(log: seq<ChatMessage>, position: nat): ChatMessage
    requires 1 <= position <= |log|
  {
    log[position - 1]
  }

  ghost function LogMap(log: seq<ChatMessage>): map<nat, ChatMessage> {
    map p: nat | 1 <= p <= |log| :: EventAt(log, p)
  }

  lemma HeardIsCarried(logs: map<nat, seq<ChatMessage>>, r: Registration)
    requires HeardCommitted(logs, r) && LogsSound(logs)
    ensures IsLog(LogMap(At(logs, r.room))) && Carries(LogMap(At(logs, r.room)), r.inputs)
    ensures forall p <- Seen(r.inputs) :: 1 <= p <= |At(logs, r.room)|
  {
    forall i | 0 <= i < |r.inputs| && IsMessage(r.inputs[i])
      ensures Committed(logs, r.room, r.inputs[i].note.message)
    {
      assert InputCommitted(logs, r.room, r.inputs[i]);
    }
  }

  lemma {:induction false} SkipsAreCommitted(limit: nat, start: nat, inputs: seq<Input>, head: nat)
    requires forall i | 0 <= i < |inputs| && inputs[i].Advancing? :: inputs[i].position <= head
    ensures forall p <- Skips(limit, start, inputs) :: p <= head
  {
    if inputs != [] {
      SkipsAreCommitted(limit, start, inputs[..|inputs| - 1], head);
    }
  }

  /** An active listener that has not overflowed. */
  ghost predicate Delivering(w: World, id: nat) {
    && id in w.fanout.registrations
    && var l := w.fanout.registrations[id].listener;
       l.active && l.cursor.Some? && !l.cursor.value.overflowed
  }

  lemma ListenerIsExact(limit: nat, w: World, id: nat)
    requires Inv(limit, w) && Delivering(w, id)
    ensures w.fanout.registrations[id].start.Some?
    ensures var r := w.fanout.registrations[id];
            var log, start, cursor := At(w.logs, r.room), r.start.value, r.listener.cursor.value;
            var skipped := Skips(limit, start, r.inputs);
            && start <= cursor.position <= |log|
            && IsLog(LogMap(log))
            && Settled(LogMap(log), start, Seen(r.inputs), skipped, cursor)
            && DeliveredMessages(r.listener.trace) == Picked(LogMap(log), start, cursor.position, skipped)
  {
    var r := w.fanout.registrations[id];
    var log := At(w.logs, r.room);
    assert RegistrationSound(limit, w.logs, w.published, r);
    HeardIsCarried(w.logs, r);
    Confluence(limit, LogMap(log), r.start.value, r.inputs);
    forall k | 0 <= k < |r.inputs| && r.inputs[k].Advancing? ensures r.inputs[k].position <= |log| {
      assert InputCommitted(w.logs, r.room, r.inputs[k]);
    }
    SkipsAreCommitted(limit, r.start.value, r.inputs, |log|);
    var cursor, skipped := r.listener.cursor.value, Skips(limit, r.start.value, r.inputs);
    assert cursor.position > |log| ==> cursor.position in Seen(r.inputs) || cursor.position in skipped;
  }

  /** A message a delivering listener heard is delivered, unless it was part of its history, skipped by a
      page, or waits behind a hole. */
  lemma HeardIsAccountedFor(limit: nat, w: World, id: nat, message: ChatMessage)
    requires Inv(limit, w) && Delivering(w, id)
    requires message.position in Seen(w.fanout.registrations[id].inputs)
    requires Committed(w.logs, w.fanout.registrations[id].room, message)
    ensures AccountedFor(limit, w.fanout.registrations[id], message)
  {
    ListenerIsExact(limit, w, id);
    var r := w.fanout.registrations[id];
    var log := At(w.logs, r.room);
    SeenIsPlaced(LogMap(log), r.start.value, Seen(r.inputs), Skips(limit, r.start.value, r.inputs),
                 r.listener.cursor.value, message);
  }

  /** Where a seen event is. */
  lemma SeenIsPlaced(log: map<nat, ChatMessage>, start: nat, seen: set<nat>, skipped: set<nat>, cursor: Cursor,
                     message: ChatMessage)
    requires IsLog(log) && Settled(log, start, seen, skipped, cursor)
    requires message.position in seen && message.position in log && log[message.position] == message
    ensures || message in Picked(log, start, cursor.position, skipped)
            || message.position <= start || message.position in skipped
            || (message.position > cursor.position + 1 && message.position in cursor.pending
                && cursor.pending[message.position] == message)
  {
    PickedIsExact(log, start, cursor.position, skipped);
  }

  ghost predicate AccountedFor(limit: nat, r: Registration, message: ChatMessage) {
    && r.start.Some? && r.listener.cursor.Some?
    && var cursor := r.listener.cursor.value;
       || message in DeliveredMessages(r.listener.trace)
       || message.position <= r.start.value
       || message.position in Skips(limit, r.start.value, r.inputs)
       || (message.position > cursor.position + 1 && message.position in cursor.pending
           && cursor.pending[message.position] == message)
  }

  /** In every run, whatever was lost, repeated, reordered or repaired by pages, an active listener that did
      not overflow stands inside the log, has delivered the log's events up to there once each and in
      order, except those a page advance skipped, and buffers exactly the events heard beyond. */
  lemma DeliveryIsExact(limit: nat, states: seq<World>, i: nat, id: nat)
    requires IsLiveRun(limit, states) && i < |states| && Delivering(states[i], id)
    ensures states[i].fanout.registrations[id].start.Some?
    ensures var r := states[i].fanout.registrations[id];
            var log, start, cursor := At(states[i].logs, r.room), r.start.value, r.listener.cursor.value;
            var skipped := Skips(limit, start, r.inputs);
            && start <= cursor.position <= |log|
            && Settled(LogMap(log), start, Seen(r.inputs), skipped, cursor)
            && DeliveredMessages(r.listener.trace) == Picked(LogMap(log), start, cursor.position, skipped)
  {
    RunsKeepInv(limit, states);
    ListenerIsExact(limit, states[i], id);
  }

  /** Receiving the message a listener waits for delivers it, unless its buffer is full. */
  lemma ReceptionDelivers(limit: nat, states: seq<World>, i: nat, id: nat, room: nat, message: ChatMessage)
    requires IsLiveRun(limit, states) && i < |states| && Enabled(states[i], ReceiveMessage(room, message))
    requires Delivering(states[i], id) && Watches(states[i].fanout, room, id)
    requires var cursor := states[i].fanout.registrations[id].listener.cursor.value;
             message.position == cursor.position + 1 && |cursor.pending| < limit
    ensures var before := states[i].fanout.registrations[id];
            var after := Apply(limit, states[i], ReceiveMessage(room, message)).fanout;
            && id in after.registrations
            && var trace := after.registrations[id].listener.trace;
               && |trace| > |before.listener.trace| && trace[..|before.listener.trace|] == before.listener.trace
               && trace[|before.listener.trace|] == Delivered(message)
  {
    RunsKeepInv(limit, states);
    var r := states[i].fanout.registrations[id];
    assert RegistrationSound(limit, states[i].logs, states[i].published, r);
    CursorSafety(limit, r.start.value, r.inputs);
    NextIsDelivered(limit, r.listener.cursor.value, message);
  }

  /** A listener that heard every event since its page at least once, or had a page sent that led past it,
      stands at the head with nothing buffered and has delivered every event that no page skipped. */
  lemma HeardIsDelivered(limit: nat, states: seq<World>, i: nat, id: nat)
    requires IsLiveRun(limit, states) && i < |states| && id in states[i].fanout.registrations
    requires var r := states[i].fanout.registrations[id];
             && r.listener.active && r.listener.cursor.Some? && !r.listener.cursor.value.overflowed && r.start.Some?
             && forall p | r.start.value < p <= |At(states[i].logs, r.room)| ::
                  p in Seen(r.inputs) || p in Skips(limit, r.start.value, r.inputs)
    ensures var r := states[i].fanout.registrations[id];
            var log, skipped := At(states[i].logs, r.room), Skips(limit, r.start.value, r.inputs);
            && r.start.value <= |log|
            && r.listener.cursor.value == Fresh(|log|)
            && DeliveredMessages(r.listener.trace) == Picked(LogMap(log), r.start.value, |log|, skipped)
            && (skipped == {} ==> DeliveredMessages(r.listener.trace) == log[r.start.value..])
  {
    DeliveryIsExact(limit, states, i, id);
    RunsKeepInv(limit, states);
    assert Inv(limit, states[i]);
    var r := states[i].fanout.registrations[id];
    var log := At(states[i].logs, r.room);
    assert RegistrationSound(limit, states[i].logs, states[i].published, r);
    HeardIsCarried(states[i].logs, r);
    SettledAtHead(LogMap(log), r.start.value, Seen(r.inputs), Skips(limit, r.start.value, r.inputs),
                  r.listener.cursor.value, |log|);
    RangeIsSlice(log, r.start.value, |log|);
  }

  lemma {:induction false} RangeIsSlice(log: seq<ChatMessage>, low: nat, high: nat)
    requires low <= high <= |log|
    ensures Picked(LogMap(log), low, high, {}) == log[low..high]
    decreases high
  {
    if low < high { RangeIsSlice(log, low, high - 1); }
  }
}
