/** The socket-scoped reorder cursor (src/modules/chat/chat-live-cursor.ts). The class at the end is
    the cursor itself; the functions before it say what one call does to a cursor value and which
    callbacks it makes, and the lemmas are about every run of calls. */
module LiveCursor {
  import opened ChatTypes
  import opened Ordering

  datatype Cursor = Cursor(position: nat, pending: map<nat, ChatMessage>, overflowed: bool)

  /** One callback made by the cursor. */
  datatype Event = Delivered(message: ChatMessage) | Gap(highWatermark: nat) | Overflowed

  datatype Outcome = Outcome(cursor: Cursor, events: seq<Event>)

  datatype Input = Accepting(note: Notification) | Advancing(position: nat)

  function Fresh(position: nat): Cursor {
    Cursor(position, map[], false)
  }

  predicate IsHighest(keys: set<nat>, highest: nat) {
    highest in keys && forall key <- keys :: key <= highest
  }

  function Highest(keys: set<nat>): (highest: nat)
    requires keys != {}
    ensures IsHighest(keys, highest)
  {
    HighestExists(keys);
    var highest :| IsHighest(keys, highest);
    highest
  }

  lemma {:induction false} HighestExists(keys: set<nat>)
    requires keys != {}
    ensures exists highest :: IsHighest(keys, highest)
    decreases |keys|
  {
    var key :| key in keys;
    var rest := keys - {key};
    if rest == {} {
      assert keys == {key};
      assert IsHighest(keys, key);
    } else {
      HighestExists(rest);
      var other :| IsHighest(rest, other);
      assert keys == rest + {key};
      assert IsHighest(keys, if other > key then other else key);
    }
  }

  /** Releases buffered messages while the next position is present. */
  function Flush(position: nat, pending: map<nat, ChatMessage>): (out: Outcome)
    ensures !out.cursor.overflowed && forall event <- out.events :: event.Delivered?
    decreases |pending|
  {
    if position + 1 in pending then
      var rest := Flush(position + 1, pending - {position + 1});
      Outcome(rest.cursor, [Delivered(pending[position + 1])] + rest.events)
    else
      Outcome(Cursor(position, pending, false), [])
  }

  function FailOverflow(cursor: Cursor): Outcome {
    Outcome(Cursor(cursor.position, map[], true), [Overflowed])
  }

  /** Flushes, then reports the highest position that is still waiting behind a hole. */
  function Release(position: nat, pending: map<nat, ChatMessage>): Outcome {
    var flushed := Flush(position, pending);
    if flushed.cursor.pending == map[] then flushed
    else Outcome(flushed.cursor, flushed.events + [Gap(Highest(flushed.cursor.pending.Keys))])
  }

  predicate Overflows(limit: nat, cursor: Cursor, message: ChatMessage) {
    || (message.position in cursor.pending && cursor.pending[message.position].eventId != message.eventId)
    || |cursor.pending[message.position := message]| > limit
  }

  function Accept(limit: nat, cursor: Cursor, note: Notification): Outcome {
    if cursor.overflowed then Outcome(cursor, [])
    else match note
      case HighWatermark(position) =>
        Outcome(cursor, if position > cursor.position then [Gap(position)] else [])
      case MessageNote(message) =>
        if message.position <= cursor.position then Outcome(cursor, [])
        else if Overflows(limit, cursor, message) then FailOverflow(cursor)
        else Release(cursor.position, cursor.pending[message.position := message])
  }

  function Advance(cursor: Cursor, next: nat): Outcome {
    if next <= cursor.position || cursor.overflowed then Outcome(cursor, [])
    else Flush(next, map key | key in cursor.pending && key > next :: cursor.pending[key])
  }

  function Call(limit: nat, cursor: Cursor, input: Input): Outcome {
    match input
    case Accepting(note) => Accept(limit, cursor, note)
    case Advancing(position) => Advance(cursor, position)
  }

  function Then(before: Outcome, after: Outcome): Outcome {
    Outcome(after.cursor, before.events + after.events)
  }

  /** A whole run of calls; `events` is the complete callback trace. */
  function Run(limit: nat, cursor: Cursor, inputs: seq<Input>): Outcome {
    if inputs == [] then Outcome(cursor, [])
    else
      var before := Run(limit, cursor, inputs[..|inputs| - 1]);
      Then(before, Call(limit, before.cursor, inputs[|inputs| - 1]))
  }

  // ---------------------------------------------------------------------------------------------
  // One call
  // ---------------------------------------------------------------------------------------------

  /** What holds of a cursor between calls. */
  ghost predicate Valid(limit: nat, cursor: Cursor) {
    && |cursor.pending| <= limit
    && (forall key <- cursor.pending :: key > cursor.position + 1 && cursor.pending[key].position == key)
    && (cursor.overflowed ==> cursor.pending == map[])
  }

  /** `events` are deliveries of consecutive positions starting at `from + 1`. */
  ghost predicate Consecutive(events: seq<Event>, from: nat) {
    forall i | 0 <= i < |events| ::
      events[i].Delivered? && events[i].message.position == from + 1 + i
  }

  /** Every delivery in `events` is the message buffered for its position. */
  ghost predicate Released(events: seq<Event>, pending: map<nat, ChatMessage>) {
    forall i | 0 <= i < |events| ::
      && events[i].Delivered?
      && events[i].message.position in pending
      && events[i].message == pending[events[i].message.position]
  }

  lemma {:induction false} FlushDelivers(position: nat, pending: map<nat, ChatMessage>)
    requires forall key <- pending :: key > position && pending[key].position == key
    ensures var out := Flush(position, pending);
            && Consecutive(out.events, position)
            && out.cursor.position == position + |out.events|
            && Released(out.events, pending)
            && out.cursor.position + 1 !in pending
            && out.cursor.pending == (map key | key in pending && key > out.cursor.position :: pending[key])
    decreases |pending|
  {
    if position + 1 in pending {
      var smaller := pending - {position + 1};
      FlushDelivers(position + 1, smaller);
    }
  }

  lemma SizeWithin(small: map<nat, ChatMessage>, big: map<nat, ChatMessage>)
    requires small.Keys <= big.Keys
    ensures |small| <= |big|
  {
    SubsetSize(small.Keys, big.Keys);
  }

  /** The shape of the callbacks of one accepting or advancing call: consecutive deliveries from the
      cursor, then at most one gap beyond the new cursor; or an overflow alone. */
  ghost predicate CallShape(base: nat, after: Cursor, events: seq<Event>) {
    || (events == [Overflowed] && after.overflowed)
    || (&& base <= after.position <= base + |events|
        && Consecutive(events[..after.position - base], base)
        && GapAtMost(events[after.position - base..], after.position))
  }

  ghost predicate GapAtMost(events: seq<Event>, position: nat) {
    events == [] || (|events| == 1 && events[0].Gap? && events[0].highWatermark > position)
  }

  lemma {:induction false} CallSafe(limit: nat, cursor: Cursor, input: Input)
    requires Valid(limit, cursor)
    ensures var out := Call(limit, cursor, input);
            && Valid(limit, out.cursor)
            && out.cursor.position >= cursor.position
            && (cursor.overflowed ==> out == Outcome(cursor, []))
            && (out.cursor.overflowed && !cursor.overflowed <==> out.events == [Overflowed])
            && (out.events == [Overflowed] || !out.cursor.overflowed || out.events == [])
            && (!cursor.overflowed ==>
                  var base := if input.Advancing? && input.position > cursor.position
                              then input.position else cursor.position;
                  CallShape(if out.cursor.overflowed then cursor.position else base, out.cursor, out.events))
  {
    var out := Call(limit, cursor, input);
    if cursor.overflowed {
    } else if input.Advancing? && input.position > cursor.position {
      var kept := map key | key in cursor.pending && key > input.position :: cursor.pending[key];
      SizeWithin(kept, cursor.pending);
      FlushSafe(limit, input.position, kept);
      GapSafe(limit, input.position, out);
    } else if input.Accepting? && input.note.MessageNote? {
      AcceptMessageSafe(limit, cursor, input.note.message);
    } else {
      ShapeOf(cursor.position, cursor, [], out.events);
      assert [] + out.events == out.events;
    }
  }

  lemma ShapeOf(base: nat, after: Cursor, delivered: seq<Event>, gap: seq<Event>)
    requires Consecutive(delivered, base) && after.position == base + |delivered|
    requires GapAtMost(gap, after.position)
    ensures CallShape(base, after, delivered + gap)
    ensures delivered + gap != [Overflowed]
  {
    var events := delivered + gap;
    assert events[..|delivered|] == delivered && events[|delivered|..] == gap;
    assert |delivered| > 0 ==> events[0] == delivered[0];
    assert delivered == [] ==> events == gap;
  }

  lemma {:induction false} FlushSafe(limit: nat, position: nat, pending: map<nat, ChatMessage>)
    requires |pending| <= limit && forall key <- pending :: key > position && pending[key].position == key
    ensures var out := Flush(position, pending);
            && Valid(limit, out.cursor)
            && Consecutive(out.events, position)
            && out.cursor.position == position + |out.events|
  {
    FlushDelivers(position, pending);
    var out := Flush(position, pending);
    SizeWithin(out.cursor.pending, pending);
    forall key <- out.cursor.pending ensures key > out.cursor.position + 1 {
      assert key in pending && key != out.cursor.position + 1;
    }
  }

  lemma {:induction false} ReleaseSafe(limit: nat, position: nat, pending: map<nat, ChatMessage>)
    requires |pending| <= limit && forall key <- pending :: key > position && pending[key].position == key
    ensures var out := Release(position, pending);
            && Valid(limit, out.cursor) && !out.cursor.overflowed
            && out.cursor.position >= position
            && CallShape(position, out.cursor, out.events)
            && out.events != [Overflowed]
  {
    FlushSafe(limit, position, pending);
    GapSafe(limit, position, Flush(position, pending));
  }

  /** The gap reported after a flush lies beyond the cursor. */
  lemma GapSafe(limit: nat, position: nat, flushed: Outcome)
    requires Valid(limit, flushed.cursor)
    requires Consecutive(flushed.events, position) && flushed.cursor.position == position + |flushed.events|
    ensures var waiting := flushed.cursor.pending;
            var gap := if waiting == map[] then [] else [Gap(Highest(waiting.Keys))];
            CallShape(position, flushed.cursor, flushed.events + gap) && flushed.events + gap != [Overflowed]
    ensures CallShape(position, flushed.cursor, flushed.events) && flushed.events != [Overflowed]
  {
    var waiting := flushed.cursor.pending;
    var gap := if waiting == map[] then [] else [Gap(Highest(waiting.Keys))];
    assert gap != [] ==> gap[0].highWatermark in waiting;
    ShapeOf(position, flushed.cursor, flushed.events, gap);
    ShapeOf(position, flushed.cursor, flushed.events, []);
    assert flushed.events + [] == flushed.events;
  }

  /** What a call that overflows leaves behind. */
  lemma OverflowSafe(limit: nat, cursor: Cursor)
    ensures var out := FailOverflow(cursor);
            && Valid(limit, out.cursor) && out.cursor.overflowed && out.cursor.position == cursor.position
            && out.events == [Overflowed]
            && CallShape(cursor.position, out.cursor, out.events)
  {
  }

  /** What a safe accepting call may do. */
  ghost predicate SafeOutcome(limit: nat, position: nat, out: Outcome) {
    && Valid(limit, out.cursor)
    && out.cursor.position >= position
    && (out.cursor.overflowed <==> out.events == [Overflowed])
    && CallShape(position, out.cursor, out.events)
  }

  lemma StaleSafe(limit: nat, cursor: Cursor)
    requires Valid(limit, cursor) && !cursor.overflowed
    ensures SafeOutcome(limit, cursor.position, Outcome(cursor, []))
  {
    ShapeOf(cursor.position, cursor, [], []);
    var none: seq<Event> := [];
    assert none + none == none;
  }

  lemma {:induction false} AcceptMessageSafe(limit: nat, cursor: Cursor, message: ChatMessage)
    requires Valid(limit, cursor) && !cursor.overflowed
    ensures SafeOutcome(limit, cursor.position, Accept(limit, cursor, MessageNote(message)))
  {
    if message.position <= cursor.position {
      StaleSafe(limit, cursor);
      assert Accept(limit, cursor, MessageNote(message)) == Outcome(cursor, []);
    } else if Overflows(limit, cursor, message) {
      OverflowSafe(limit, cursor);
      assert Accept(limit, cursor, MessageNote(message)) == FailOverflow(cursor);
    } else {
      var pending := cursor.pending[message.position := message];
      ReleaseSafe(limit, cursor.position, pending);
      assert Accept(limit, cursor, MessageNote(message)) == Release(cursor.position, pending);
    }
  }

  /** Overflow is exactly a conflicting event for a buffered position, or a message for a new
      position when the buffer is already full -- even the one that would fill the hole. */
  lemma OverflowExactly(limit: nat, cursor: Cursor, note: Notification)
    requires Valid(limit, cursor) && !cursor.overflowed
    ensures Accept(limit, cursor, note).cursor.overflowed <==>
              && note.MessageNote?
              && note.message.position > cursor.position
              && (if note.message.position in cursor.pending
                  then cursor.pending[note.message.position].eventId != note.message.eventId
                  else |cursor.pending| == limit)
  {
    if note.MessageNote? && note.message.position > cursor.position {
      var next := note.message.position;
      var pending := cursor.pending[next := note.message];
      if next in cursor.pending {
        assert pending.Keys == cursor.pending.Keys;
      } else {
        assert pending.Keys == cursor.pending.Keys + {next};
      }
      FlushDelivers(cursor.position, pending);
    }
  }

  /** Gap reports are exact: a watermark beyond the cursor is reported as it is, and after a message the
      highest position still waiting behind a hole is, once, if and only if one is waiting. */
  lemma GapsAreExact(limit: nat, cursor: Cursor, note: Notification, highWatermark: nat)
    requires Valid(limit, cursor) && !cursor.overflowed && !Accept(limit, cursor, note).cursor.overflowed
    ensures var out := Accept(limit, cursor, note);
            match note
            case HighWatermark(position) =>
              out.cursor == cursor && (Gap(highWatermark) in out.events <==> highWatermark == position > cursor.position)
            case MessageNote(message) =>
              Gap(highWatermark) in out.events <==>
                && message.position > cursor.position
                && highWatermark in out.cursor.pending
                && forall key <- out.cursor.pending :: key <= highWatermark
  {
    if note.MessageNote? && note.message.position > cursor.position {
      ReleaseGap(cursor.position, cursor.pending[note.message.position := note.message], highWatermark);
    }
  }

  lemma ReleaseGap(position: nat, pending: map<nat, ChatMessage>, highWatermark: nat)
    ensures var out := Release(position, pending);
            Gap(highWatermark) in out.events <==>
              highWatermark in out.cursor.pending && forall key <- out.cursor.pending :: key <= highWatermark
  {
    var flushed := Flush(position, pending);
    assert Gap(highWatermark) !in flushed.events;
    if flushed.cursor.pending != map[] {
      var highest := Highest(flushed.cursor.pending.Keys);
      assert highest in flushed.cursor.pending;
    }
  }

  /** The message a cursor waits for is delivered at once, unless the buffer is full. */
  lemma NextIsDelivered(limit: nat, cursor: Cursor, message: ChatMessage)
    requires Valid(limit, cursor) && !cursor.overflowed && message.position == cursor.position + 1
    ensures var out := Accept(limit, cursor, MessageNote(message));
            && (out.cursor.overflowed <==> |cursor.pending| == limit)
            && (!out.cursor.overflowed ==> out.events != [] && out.events[0] == Delivered(message))
  {
    OverflowExactly(limit, cursor, MessageNote(message));
    var pending := cursor.pending[message.position := message];
    var flushed := Flush(cursor.position, pending);
    assert flushed.events != [] && flushed.events[0] == Delivered(message);
  }

  // ---------------------------------------------------------------------------------------------
  // Every run
  // ---------------------------------------------------------------------------------------------

  /** Deliveries strictly increase inside `(low, high]`, and nothing follows an overflow. */
  ghost predicate OrderedTrace(trace: seq<Event>, low: nat, high: nat) {
    && (forall i | 0 <= i < |trace| && trace[i].Delivered? :: low < trace[i].message.position <= high)
    && (forall i, j | 0 <= i < j < |trace| && trace[i].Delivered? && trace[j].Delivered? ::
          trace[i].message.position < trace[j].message.position)
    && (forall i | 0 <= i < |trace| && trace[i].Overflowed? :: i == |trace| - 1)
  }

  lemma {:induction false} CursorSafety(limit: nat, start: nat, inputs: seq<Input>)
    ensures var out := Run(limit, Fresh(start), inputs);
            && Valid(limit, out.cursor)
            && start <= out.cursor.position
            && OrderedTrace(out.events, start, out.cursor.position)
            && (out.cursor.overflowed <==> Overflowed in out.events)
  {
    if inputs != [] {
      var init := inputs[..|inputs| - 1];
      CursorSafety(limit, start, init);
      var before := Run(limit, Fresh(start), init);
      var after := Call(limit, before.cursor, inputs[|inputs| - 1]);
      CallSafe(limit, before.cursor, inputs[|inputs| - 1]);
      var trace := before.events + after.events;
      if !before.cursor.overflowed {
        CallTrace(before.cursor, inputs[|inputs| - 1], limit);
      }
      JoinTraces(before.events, after.events, start, before.cursor.position, after.cursor.position);
    }
  }

  lemma JoinTraces(first: seq<Event>, second: seq<Event>, low: nat, middle: nat, high: nat)
    requires OrderedTrace(first, low, middle) && OrderedTrace(second, middle, high)
    requires low <= middle <= high
    requires Overflowed in first ==> second == []
    ensures OrderedTrace(first + second, low, high)
    ensures Overflowed in first + second <==> Overflowed in first || Overflowed in second
  {
  }

  /** Positions delivered by one call lie above the old cursor and at or below the new one. */
  lemma {:induction false} CallTrace(cursor: Cursor, input: Input, limit: nat)
    requires Valid(limit, cursor) && !cursor.overflowed
    ensures var out := Call(limit, cursor, input);
            && OrderedTrace(out.events, cursor.position, out.cursor.position)
            && (Overflowed in out.events <==> out.cursor.overflowed)
  {
    CallSafe(limit, cursor, input);
    var out := Call(limit, cursor, input);
    var base := if input.Advancing? && input.position > cursor.position then input.position else cursor.position;
    if out.events != [Overflowed] { ShapeIsOrdered(cursor.position, base, out.cursor, out.events); }
  }

  lemma ShapeIsOrdered(low: nat, base: nat, after: Cursor, events: seq<Event>)
    requires low <= base && CallShape(base, after, events) && events != [Overflowed]
    ensures OrderedTrace(events, low, after.position) && Overflowed !in events
  {
    var n := after.position - base;
    DeliveriesAreOrdered(low, base, events[..n]);
    JoinTraces(events[..n], events[n..], low, after.position, after.position);
    assert events[..n] + events[n..] == events;
  }

  lemma DeliveriesAreOrdered(low: nat, base: nat, delivered: seq<Event>)
    requires low <= base && Consecutive(delivered, base)
    ensures OrderedTrace(delivered, low, base + |delivered|) && Overflowed !in delivered
  {
  }

  // Feeds of notifications

  function Inputs(notes: seq<Notification>): (inputs: seq<Input>)
    ensures |inputs| == |notes| && forall i | 0 <= i < |notes| :: inputs[i] == Accepting(notes[i])
  {
    seq(|notes|, i requires 0 <= i < |notes| => Accepting(notes[i]))
  }

  lemma InputsConcat(first: seq<Notification>, second: seq<Notification>)
    ensures Inputs(first + second) == Inputs(first) + Inputs(second)
  {
  }

  function Feed(limit: nat, start: nat, notes: seq<Notification>): Outcome {
    Run(limit, Fresh(start), Inputs(notes))
  }

  // ---------------------------------------------------------------------------------------------
  // The cursor object
  // ---------------------------------------------------------------------------------------------

  /** `emitted` records the callbacks in the order in which they were made. */
  class ChatLiveCursor {
    var position: nat
    var pending: map<nat, ChatMessage>
    var overflowed: bool
    var emitted: seq<Event>
    const maximumPending: nat

    ghost function State(): Cursor
      reads this
    {
      Cursor(position, pending, overflowed)
    }

    constructor (initialPosition: nat, maximumPending: nat)
      requires maximumPending >= 1
      ensures State() == Fresh(initialPosition) && emitted == []
      ensures this.maximumPending == maximumPending
    {
      this.position := initialPosition;
      this.maximumPending := maximumPending;
      pending := map[];
      overflowed := false;
      emitted := [];
    }

    method Accept(note: Notification)
      modifies this
      ensures var out := Call(maximumPending, old(State()), Accepting(note));
              State() == out.cursor && emitted == old(emitted) + out.events
    {
      if overflowed { return; }
      match note {
        case HighWatermark(durable) =>
          if durable > position { emitted := emitted + [Gap(durable)]; }
        case MessageNote(message) =>
          var next := message.position;
          if next <= position { return; }
          if next in pending && pending[next].eventId != message.eventId {
            FailOverflow();
            return;
          }
          pending := pending[next := message];
          if |pending| > maximumPending {
            FailOverflow();
            return;
          }
          DrainPending();
          if |pending| > 0 {
            var highest := HighestPending();
            emitted := emitted + [Gap(highest)];
          }
      }
    }

    method Advance(next: nat)
      modifies this
      ensures var out := Call(maximumPending, old(State()), Advancing(next));
              State() == out.cursor && emitted == old(emitted) + out.events
    {
      if next <= position || overflowed { return; }
      position := next;
      var candidates := pending.Keys;
      while candidates != {}
        invariant candidates <= old(pending).Keys
        invariant position == next && !overflowed && emitted == old(emitted)
        invariant pending == map key | key in old(pending) && (key > next || key in candidates) :: old(pending)[key]
        decreases |candidates|
      {
        var candidate :| candidate in candidates;
        candidates := candidates - {candidate};
        if candidate <= next { pending := pending - {candidate}; }
      }
      assert pending == map key | key in old(pending) && key > next :: old(pending)[key];
      DrainPending();
    }

    /** The `flush` loop: it stops, because every round removes one buffered message. */
    method DrainPending()
      requires !overflowed
      modifies this
      ensures var out := Flush(old(position), old(pending));
              State() == out.cursor && emitted == old(emitted) + out.events
    {
      ghost var all := Flush(position, pending);
      ghost var done: seq<Event> := [];
      while position + 1 in pending
        invariant !overflowed
        invariant emitted == old(emitted) + done
        invariant var rest := Flush(position, pending);
                  all.cursor == rest.cursor && all.events == done + rest.events
        decreases |pending|
      {
        var expected := position + 1;
        var message := pending[expected];
        pending := pending - {expected};
        emitted := emitted + [Delivered(message)];
        done := done + [Delivered(message)];
        position := expected;
      }
    }

    method HighestPending() returns (highest: nat)
      requires pending != map[]
      ensures highest == Highest(pending.Keys)
    {
      var remaining := pending.Keys;
      highest :| highest in remaining;
      remaining := remaining - {highest};
      while remaining != {}
        invariant highest in pending.Keys && remaining <= pending.Keys
        invariant forall key <- pending.Keys :: key in remaining || key <= highest
        decreases |remaining|
      {
        var key :| key in remaining;
        remaining := remaining - {key};
        if key > highest { highest := key; }
      }
    }

    method FailOverflow()
      modifies this
      ensures State() == Cursor(old(position), map[], true) && emitted == old(emitted) + [Overflowed]
    {
      overflowed := true;
      pending := map[];
      emitted := emitted + [Overflowed];
    }
  }
}
