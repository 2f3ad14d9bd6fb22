/** What any mix of notifications and page advances makes of a cursor: the order and the repetition of
    notifications do not matter, and every position is delivered once, skipped by an advance, or still
    waiting (src/modules/chat/chat-live-cursor.ts). */
module CursorConfluence {
  import opened ChatTypes
  import opened LiveCursor

  /** A durable log holds one event per position. */
  ghost predicate IsLog(log: map<nat, ChatMessage>) {
    forall position <- log :: log[position].position == position
  }

  predicate IsMessage(input: Input) {
    input.Accepting? && input.note.MessageNote?
  }

  /** Every message notification repeats an event of the log. */
  ghost predicate Carries(log: map<nat, ChatMessage>, inputs: seq<Input>) {
    forall i | 0 <= i < |inputs| && IsMessage(inputs[i]) ::
      && inputs[i].note.message.position in log
      && log[inputs[i].note.message.position] == inputs[i].note.message
  }

  /** The positions whose event was notified at least once. */
  ghost function Seen(inputs: seq<Input>): set<nat> {
    set input <- inputs | IsMessage(input) :: input.note.message.position
  }

  ghost function Interval(low: nat, high: nat): (positions: set<nat>)
    ensures forall p :: p in positions <==> low < p <= high
  {
    if high <= low then {} else Interval(low, high - 1) + {high}
  }

  /** The positions that page advances jumped over. */
  ghost function Skips(limit: nat, start: nat, inputs: seq<Input>): set<nat> {
    if inputs == [] then {}
    else
      var init, last := inputs[..|inputs| - 1], inputs[|inputs| - 1];
      Skips(limit, start, init)
      + if last.Advancing? then Interval(Run(limit, Fresh(start), init).cursor.position, last.position) else {}
  }

  /** A position was skipped if and only if some advance went from below it to it or beyond. */
  lemma {:induction false} SkipsExactly(limit: nat, start: nat, inputs: seq<Input>, p: nat)
    ensures p in Skips(limit, start, inputs) <==>
              exists k :: 0 <= k < |inputs| && SkippedBy(limit, start, inputs, k, p)
  {
    if inputs != [] {
      var last := |inputs| - 1;
      var init := inputs[..last];
      SkipsExactly(limit, start, init, p);
      forall k | 0 <= k < last
        ensures SkippedBy(limit, start, inputs, k, p) <==> SkippedBy(limit, start, init, k, p)
      {
        assert inputs[..k] == init[..k] && inputs[k] == init[k];
      }
      assert p in Skips(limit, start, inputs) && p !in Skips(limit, start, init)
        ==> SkippedBy(limit, start, inputs, last, p);
    }
  }

  ghost predicate SkippedBy(limit: nat, start: nat, inputs: seq<Input>, k: int, p: nat)
    requires 0 <= k < |inputs|
  {
    inputs[k].Advancing? && Run(limit, Fresh(start), inputs[..k]).cursor.position < p <= inputs[k].position
  }

  function DeliveredMessages(trace: seq<Event>): seq<ChatMessage> {
    if trace == [] then []
    else
      var last := trace[|trace| - 1];
      DeliveredMessages(trace[..|trace| - 1]) + if last.Delivered? then [last.message] else []
  }

  /** The log's events at the positions `low + 1 .. high` that are not skipped, in order. */
  ghost function Picked(log: map<nat, ChatMessage>, low: nat, high: nat, skipped: set<nat>): seq<ChatMessage> {
    if high <= low then []
    else Picked(log, low, high - 1, skipped) + if high in log && high !in skipped then [log[high]] else []
  }

  /** `message` is the log's event at an unskipped position in `(low, high]`. */
  ghost predicate IsPick(log: map<nat, ChatMessage>, low: nat, high: nat, skipped: set<nat>, message: ChatMessage) {
    && low < message.position <= high && message.position !in skipped
    && message.position in log && log[message.position] == message
  }

  /** `picked` holds every event to be picked once, in ascending order, and nothing else. */
  ghost predicate IsSelection(log: map<nat, ChatMessage>, low: nat, high: nat, skipped: set<nat>, picked: seq<ChatMessage>) {
    && (forall i, j | 0 <= i < j < |picked| :: picked[i].position < picked[j].position)
    && (forall p | low < p <= high && p in log && p !in skipped :: log[p] in picked)
    && (forall i | 0 <= i < |picked| :: IsPick(log, low, high, skipped, picked[i]))
  }

  lemma {:induction false} PickedIsExact(log: map<nat, ChatMessage>, low: nat, high: nat, skipped: set<nat>)
    requires IsLog(log)
    ensures IsSelection(log, low, high, skipped, Picked(log, low, high, skipped))
  {
    if high > low {
      PickedIsExact(log, low, high - 1, skipped);
      var before, picked := Picked(log, low, high - 1, skipped), Picked(log, low, high, skipped);
      forall i | 0 <= i < |picked| ensures IsPick(log, low, high, skipped, picked[i]) {
        assert i < |before| ==> picked[i] == before[i] && IsPick(log, low, high - 1, skipped, before[i]);
      }
      forall p | low < p <= high && p in log && p !in skipped ensures log[p] in picked {
        if p < high { assert log[p] in before; }
      }
    }
  }

  lemma {:induction false} PickedIgnores(log: map<nat, ChatMessage>, low: nat, high: nat, skipped: set<nat>, more: set<nat>)
    requires forall p <- more :: p > high
    ensures Picked(log, low, high, skipped + more) == Picked(log, low, high, skipped)
  {
    if high > low { PickedIgnores(log, low, high - 1, skipped, more); }
  }

  lemma {:induction false} PickedJumps(log: map<nat, ChatMessage>, low: nat, middle: nat, high: nat, skipped: set<nat>)
    requires low <= middle <= high && Interval(middle, high) <= skipped
    ensures Picked(log, low, high, skipped) == Picked(log, low, middle, skipped)
    decreases high
  {
    if high > middle {
      assert high in Interval(middle, high) && Interval(middle, high - 1) <= Interval(middle, high);
      PickedJumps(log, low, middle, high - 1, skipped);
    }
  }

  /** The cursor that the seen and the skipped positions determine: everything up to it was seen or
      skipped, the next position was not seen, and everything seen beyond it is buffered. */
  ghost predicate Settled(log: map<nat, ChatMessage>, start: nat, seen: set<nat>, skipped: set<nat>, cursor: Cursor) {
    && start <= cursor.position
    && (forall position | start < position <= cursor.position :: position in seen || position in skipped)
    && (forall position <- skipped :: start < position <= cursor.position)
    && cursor.position + 1 !in seen
    && seen <= log.Keys
    && cursor.pending == (map position | position in seen && position > cursor.position :: log[position])
    && !cursor.overflowed
  }

  lemma SettledIsUnique(log: map<nat, ChatMessage>, start: nat, seen: set<nat>, skipped: set<nat>, one: Cursor, two: Cursor)
    requires Settled(log, start, seen, skipped, one) && Settled(log, start, seen, skipped, two)
    ensures one == two
  {
    assert one.position < two.position ==> one.position + 1 in seen || one.position + 1 in skipped;
    assert two.position < one.position ==> two.position + 1 in seen || two.position + 1 in skipped;
  }

  /** Once everything up to `head` was seen or skipped, and nothing beyond, the cursor stands there. */
  lemma SettledAtHead(log: map<nat, ChatMessage>, start: nat, seen: set<nat>, skipped: set<nat>, cursor: Cursor, head: nat)
    requires Settled(log, start, seen, skipped, cursor) && start <= head
    requires forall p <- seen :: p <= head
    requires forall p <- skipped :: p <= head
    requires forall p | start < p <= head :: p in seen || p in skipped
    ensures cursor == Fresh(head)
  {
    assert cursor.position > head ==> cursor.position in seen || cursor.position in skipped;
    assert cursor.position < head ==> cursor.position + 1 in seen || cursor.position + 1 in skipped;
    assert cursor.pending == map[];
  }

  lemma {:induction false} DeliveredConcat(first: seq<Event>, second: seq<Event>)
    ensures DeliveredMessages(first + second) == DeliveredMessages(first) + DeliveredMessages(second)
    decreases |second|
  {
    if second == [] {
      assert first + second == first;
    } else {
      var init := second[..|second| - 1];
      assert (first + second)[..|first + second| - 1] == first + init;
      DeliveredConcat(first, init);
    }
  }

  /** Consecutive released events extend the picked range exactly. */
  lemma {:induction false} ReleasedRange(log: map<nat, ChatMessage>, start: nat, from: nat, events: seq<Event>,
                                         skipped: set<nat>)
    requires start <= from && Consecutive(events, from) && forall p <- skipped :: p <= from
    requires forall event <- events :: event.message.position in log && log[event.message.position] == event.message
    ensures Picked(log, start, from + |events|, skipped) == Picked(log, start, from, skipped) + DeliveredMessages(events)
    decreases |events|
  {
    if events != [] {
      var init, last := events[..|events| - 1], events[|events| - 1];
      assert last in events;
      ReleasedRange(log, start, from, init, skipped);
    }
  }

  /** A flush from a position whose beyond is buffered as seen settles the cursor again. */
  lemma {:induction false} FlushSettles(log: map<nat, ChatMessage>, start: nat, seen: set<nat>, skipped: set<nat>,
                                        from: nat, pending: map<nat, ChatMessage>)
    requires IsLog(log) && seen <= log.Keys && start <= from
    requires forall position | start < position <= from :: position in seen || position in skipped
    requires forall position <- skipped :: start < position <= from
    requires pending == map position | position in seen && position > from :: log[position]
    ensures var out := Flush(from, pending);
            && Settled(log, start, seen, skipped, out.cursor)
            && Picked(log, start, out.cursor.position, skipped)
               == Picked(log, start, from, skipped) + DeliveredMessages(out.events)
  {
    FlushDelivers(from, pending);
    var out := Flush(from, pending);
    forall position | from < position <= out.cursor.position
      ensures position in seen
    {
      var event := out.events[position - from - 1];
      assert event.message.position == position;
    }
    ReleasedRange(log, start, from, out.events, skipped);
  }

  /** The gap report delivers nothing more. */
  lemma ReleaseDelivers(position: nat, pending: map<nat, ChatMessage>)
    ensures var flushed, out := Flush(position, pending), Release(position, pending);
            out.cursor == flushed.cursor && DeliveredMessages(out.events) == DeliveredMessages(flushed.events)
  {
    var flushed := Flush(position, pending);
    if flushed.cursor.pending != map[] {
      DeliveredConcat(flushed.events, [Gap(Highest(flushed.cursor.pending.Keys))]);
    }
  }

  lemma {:induction false} NoDelivery(events: seq<Event>)
    requires |events| <= 1 && forall event <- events :: !event.Delivered?
    ensures DeliveredMessages(events) == []
  {
  }

  /** What one call makes of a settled cursor: it is settled again, for what was seen and skipped since, and
      the picked range grew by exactly what the call delivered. */
  ghost predicate Extends(log: map<nat, ChatMessage>, start: nat, seen: set<nat>, skipped: set<nat>,
                          before: Cursor, moreSeen: set<nat>, moreSkipped: set<nat>, out: Outcome)
  {
    && Settled(log, start, seen + moreSeen, skipped + moreSkipped, out.cursor)
    && Picked(log, start, out.cursor.position, skipped + moreSkipped)
       == Picked(log, start, before.position, skipped) + DeliveredMessages(out.events)
  }

  lemma {:induction false} NothingExtends(log: map<nat, ChatMessage>, start: nat, seen: set<nat>, skipped: set<nat>,
                                          cursor: Cursor, moreSeen: set<nat>, events: seq<Event>)
    requires Settled(log, start, seen, skipped, cursor)
    requires forall p <- moreSeen :: p <= cursor.position && p in log
    requires |events| <= 1 && forall event <- events :: !event.Delivered?
    ensures Extends(log, start, seen, skipped, cursor, moreSeen, {}, Outcome(cursor, events))
  {
    NoDelivery(events);
    assert skipped + {} == skipped;
  }

  lemma {:induction false} MessageExtends(limit: nat, log: map<nat, ChatMessage>, start: nat, seen: set<nat>,
                                          skipped: set<nat>, cursor: Cursor, message: ChatMessage)
    requires IsLog(log) && Settled(log, start, seen, skipped, cursor)
    requires message.position in log && log[message.position] == message
    requires message.position > cursor.position
    requires !Accept(limit, cursor, MessageNote(message)).cursor.overflowed
    ensures Extends(log, start, seen, skipped, cursor, {message.position}, {},
                    Accept(limit, cursor, MessageNote(message)))
  {
    var next := message.position;
    var pending := cursor.pending[next := message];
    assert pending == map position | position in seen + {next} && position > cursor.position :: log[position];
    FlushSettles(log, start, seen + {next}, skipped, cursor.position, pending);
    ReleaseDelivers(cursor.position, pending);
    assert skipped + {} == skipped;
  }

  lemma {:induction false} AdvanceExtends(log: map<nat, ChatMessage>, start: nat, seen: set<nat>, skipped: set<nat>,
                                          cursor: Cursor, next: nat)
    requires IsLog(log) && Settled(log, start, seen, skipped, cursor)
    ensures Extends(log, start, seen, skipped, cursor, {}, Interval(cursor.position, next), Advance(cursor, next))
  {
    var jumped := Interval(cursor.position, next);
    assert seen + {} == seen;
    if next <= cursor.position {
      assert jumped == {};
      NothingExtends(log, start, seen, skipped, cursor, {}, []);
    } else {
      var kept := map key | key in cursor.pending && key > next :: cursor.pending[key];
      assert kept == map position | position in seen && position > next :: log[position];
      forall position | start < position <= next ensures position in seen || position in skipped + jumped {
        if position > cursor.position { assert position in jumped; }
      }
      FlushSettles(log, start, seen, skipped + jumped, next, kept);
      PickedJumps(log, start, cursor.position, next, skipped + jumped);
      PickedIgnores(log, start, cursor.position, skipped, jumped);
    }
  }

  ghost function Jumps(cursor: Cursor, input: Input): set<nat> {
    if input.Advancing? then Interval(cursor.position, input.position) else {}
  }

  lemma {:induction false} CallExtends(limit: nat, log: map<nat, ChatMessage>, start: nat, seen: set<nat>,
                                       skipped: set<nat>, cursor: Cursor, input: Input)
    requires IsLog(log) && Carries(log, [input]) && Settled(log, start, seen, skipped, cursor)
    requires !Call(limit, cursor, input).cursor.overflowed
    ensures Extends(log, start, seen, skipped, cursor, Seen([input]), Jumps(cursor, input), Call(limit, cursor, input))
  {
    assert input == [input][0];
    if input.Advancing? {
      assert Seen([input]) == {};
      AdvanceExtends(log, start, seen, skipped, cursor, input.position);
    } else if input.note.HighWatermark? {
      assert Seen([input]) == {};
      var gap := if input.note.position > cursor.position then [Gap(input.note.position)] else [];
      NothingExtends(log, start, seen, skipped, cursor, {}, gap);
    } else {
      var message := input.note.message;
      assert Seen([input]) == {message.position};
      if message.position <= cursor.position {
        NothingExtends(log, start, seen, skipped, cursor, {message.position}, []);
      } else {
        MessageExtends(limit, log, start, seen, skipped, cursor, message);
      }
    }
  }

  /** Confluence of any mix of notifications and advances that did not overflow: the cursor depends only on
      what was seen and skipped, and the deliveries are the log's events up to it that no advance
      skipped, once each and in order. */
  lemma {:induction false} Confluence(limit: nat, log: map<nat, ChatMessage>, start: nat, inputs: seq<Input>)
    requires IsLog(log) && Carries(log, inputs)
    requires !Run(limit, Fresh(start), inputs).cursor.overflowed
    ensures var out, skipped := Run(limit, Fresh(start), inputs), Skips(limit, start, inputs);
            && Settled(log, start, Seen(inputs), skipped, out.cursor)
            && DeliveredMessages(out.events) == Picked(log, start, out.cursor.position, skipped)
  {
    if inputs == [] {
      assert Seen(inputs) == {};
    } else {
      var init, last := inputs[..|inputs| - 1], inputs[|inputs| - 1];
      assert inputs == init + [last];
      var before := Run(limit, Fresh(start), init);
      StaysOverflowed(limit, before.cursor, last);
      Confluence(limit, log, start, init);
      CallExtends(limit, log, start, Seen(init), Skips(limit, start, init), before.cursor, last);
      assert Seen(inputs) == Seen(init) + Seen([last]);
      DeliveredConcat(before.events, Call(limit, before.cursor, last).events);
    }
  }

  lemma StaysOverflowed(limit: nat, cursor: Cursor, input: Input)
    ensures cursor.overflowed ==> Call(limit, cursor, input).cursor.overflowed
  {
  }

  lemma {:induction false} IntervalSize(keys: set<nat>, low: nat, high: nat)
    requires low <= high && forall key <- keys :: low < key <= high
    ensures |keys| <= high - low
    decreases high
  {
    if low == high {
      assert keys == {};
    } else {
      IntervalSize(keys - {high}, low, high - 1);
      assert |keys| <= |keys - {high}| + 1;
    }
  }

  /** Messages for at most `limit` positions beyond the start never overflow the buffer, whatever advances
      come in between. */
  lemma {:induction false} NoOverflow(limit: nat, log: map<nat, ChatMessage>, start: nat, count: nat, inputs: seq<Input>)
    requires IsLog(log) && Carries(log, inputs) && count <= limit
    requires forall p <- Seen(inputs) :: p <= start + count
    ensures !Run(limit, Fresh(start), inputs).cursor.overflowed
  {
    if inputs != [] {
      var init, last := inputs[..|inputs| - 1], inputs[|inputs| - 1];
      assert inputs == init + [last];
      assert Seen(inputs) == Seen(init) + Seen([last]);
      NoOverflow(limit, log, start, count, init);
      CursorSafety(limit, start, init);
      Confluence(limit, log, start, init);
      var cursor := Run(limit, Fresh(start), init).cursor;
      if last.Accepting? {
        OverflowExactly(limit, cursor, last.note);
        if last.note.MessageNote? {
          assert last == [last][0] && last.note.message.position in Seen([last]);
          RoomLeft(limit, cursor, start, count, last.note.message.position);
        }
      }
    }
  }

  lemma RoomLeft(limit: nat, cursor: Cursor, start: nat, count: nat, next: nat)
    requires count <= limit && start <= cursor.position && next <= start + count
    requires forall key <- cursor.pending :: cursor.position < key <= start + count
    ensures next <= cursor.position || next in cursor.pending || |cursor.pending| < limit
  {
    if next > cursor.position && next !in cursor.pending {
      IntervalSize(cursor.pending.Keys + {next}, start, start + count);
    }
  }

  lemma {:induction false} NothingSkipped(limit: nat, start: nat, inputs: seq<Input>)
    requires forall i | 0 <= i < |inputs| :: inputs[i].Accepting?
    ensures Skips(limit, start, inputs) == {}
  {
    if inputs != [] { NothingSkipped(limit, start, inputs[..|inputs| - 1]); }
  }

  /** Confluence of a feed without advances. */
  lemma {:induction false} FeedSettles(limit: nat, log: map<nat, ChatMessage>, start: nat, inputs: seq<Input>)
    requires IsLog(log) && Carries(log, inputs) && forall i | 0 <= i < |inputs| :: inputs[i].Accepting?
    requires !Run(limit, Fresh(start), inputs).cursor.overflowed
    ensures var out := Run(limit, Fresh(start), inputs);
            && Settled(log, start, Seen(inputs), {}, out.cursor)
            && DeliveredMessages(out.events) == Picked(log, start, out.cursor.position, {})
  {
    Confluence(limit, log, start, inputs);
    NothingSkipped(limit, start, inputs);
  }

  /** Fed in any order with any repetition, the events of `start + 1 .. start + count` are delivered
      exactly once each, in ascending order, and nothing stays buffered. */
  lemma {:induction false} ExactlyOnceInOrder(limit: nat, log: map<nat, ChatMessage>, start: nat, count: nat, inputs: seq<Input>)
    requires IsLog(log) && Carries(log, inputs) && count <= limit
    requires forall i | 0 <= i < |inputs| :: inputs[i].Accepting?
    requires forall p <- Seen(inputs) :: p <= start + count
    requires forall p | start < p <= start + count :: p in Seen(inputs)
    ensures forall p | start < p <= start + count :: p in log
    ensures var out := Run(limit, Fresh(start), inputs);
            && out.cursor == Fresh(start + count)
            && DeliveredMessages(out.events) == Picked(log, start, start + count, {})
  {
    NoOverflow(limit, log, start, count, inputs);
    FeedSettles(limit, log, start, inputs);
    SettledAtHead(log, start, Seen(inputs), {}, Run(limit, Fresh(start), inputs).cursor, start + count);
  }

  // ---------------------------------------------------------------------------------------------
  // A full buffer overflows even on the message that would fill the hole
  // ---------------------------------------------------------------------------------------------

  /** The messages at `start + 2 .. start + 1 + count`, in order: everything but the next one. */
  ghost function AllButNext(log: map<nat, ChatMessage>, start: nat, count: nat): seq<Input>
    requires HasRange(log, start, start + 1 + count)
  {
    if count == 0 then []
    else AllButNext(log, start, count - 1) + [Accepting(MessageNote(log[start + 1 + count]))]
  }

  ghost function Waiting(log: map<nat, ChatMessage>, start: nat, count: nat): map<nat, ChatMessage>
    requires HasRange(log, start, start + 1 + count)
  {
    map p | p in Interval(start + 1, start + 1 + count) :: log[p]
  }

  lemma {:induction false} IntervalCount(low: nat, high: nat)
    requires low <= high
    ensures |Interval(low, high)| == high - low
  {
    if high > low { IntervalCount(low, high - 1); }
  }

  lemma WaitingCount(log: map<nat, ChatMessage>, start: nat, count: nat)
    requires HasRange(log, start, start + 1 + count)
    ensures |Waiting(log, start, count)| == count
  {
    IntervalCount(start + 1, start + 1 + count);
    WaitingKeys(log, start, count);
  }

  lemma WaitingKeys(log: map<nat, ChatMessage>, start: nat, count: nat)
    requires HasRange(log, start, start + 1 + count)
    ensures Waiting(log, start, count).Keys == Interval(start + 1, start + 1 + count)
  {
  }

  /** The cursor stands still with these messages waiting, and nothing was delivered. */
  ghost predicate Holds(out: Outcome, position: nat, waiting: map<nat, ChatMessage>) {
    out.cursor == Cursor(position, waiting, false) && DeliveredMessages(out.events) == []
  }

  ghost predicate HasRange(log: map<nat, ChatMessage>, low: nat, high: nat) {
    forall p | low < p <= high :: p in log
  }

  /** They wait while they fit. */
  lemma {:induction false} BufferFills(limit: nat, log: map<nat, ChatMessage>, start: nat, count: nat)
    requires IsLog(log) && count <= limit && HasRange(log, start, start + 1 + count)
    ensures Holds(Run(limit, Fresh(start), AllButNext(log, start, count)), start, Waiting(log, start, count))
  {
    if count == 0 {
      NothingWaits(limit, log, start);
    } else {
      BufferFills(limit, log, start, count - 1);
      BufferFillsOn(limit, log, start, count);
    }
  }

  lemma NothingWaits(limit: nat, log: map<nat, ChatMessage>, start: nat)
    requires HasRange(log, start, start + 1)
    ensures Holds(Run(limit, Fresh(start), AllButNext(log, start, 0)), start, Waiting(log, start, 0))
  {
    assert Waiting(log, start, 0) == map[];
  }

  lemma BufferFillsOn(limit: nat, log: map<nat, ChatMessage>, start: nat, count: nat)
    requires IsLog(log) && 1 <= count <= limit && HasRange(log, start, start + 1 + count)
    requires Holds(Run(limit, Fresh(start), AllButNext(log, start, count - 1)), start, Waiting(log, start, count - 1))
    ensures Holds(Run(limit, Fresh(start), AllButNext(log, start, count)), start, Waiting(log, start, count))
  {
    var first, message := AllButNext(log, start, count - 1), log[start + 1 + count];
    WaitingGrows(log, start, count);
    WaitingCount(log, start, count);
    RunOneMore(limit, Fresh(start), first, Accepting(MessageNote(message)));
    FillsOneMore(limit, Run(limit, Fresh(start), first), start, Waiting(log, start, count - 1), message);
  }

  lemma FillsOneMore(limit: nat, before: Outcome, position: nat, waiting: map<nat, ChatMessage>, message: ChatMessage)
    requires Holds(before, position, waiting)
    requires message.position > position + 1 && message.position !in waiting && position + 1 !in waiting
    requires |waiting[message.position := message]| <= limit
    ensures Holds(Then(before, Call(limit, before.cursor, Accepting(MessageNote(message)))), position,
                  waiting[message.position := message])
  {
    OneMoreWaits(limit, before.cursor, message, waiting[message.position := message]);
    DeliveredConcat(before.events, Accept(limit, before.cursor, MessageNote(message)).events);
  }

  lemma RunOneMore(limit: nat, cursor: Cursor, first: seq<Input>, last: Input)
    ensures var before := Run(limit, cursor, first);
            Run(limit, cursor, first + [last]) == Then(before, Call(limit, before.cursor, last))
  {
    assert (first + [last])[..|first|] == first;
  }

  lemma WaitingGrows(log: map<nat, ChatMessage>, start: nat, count: nat)
    requires IsLog(log) && count >= 1 && HasRange(log, start, start + 1 + count)
    ensures var message := log[start + 1 + count];
            && message.position == start + 1 + count && message.position !in Waiting(log, start, count - 1)
            && Waiting(log, start, count) == Waiting(log, start, count - 1)[message.position := message]
            && start + 1 !in Waiting(log, start, count) && start + 1 !in Waiting(log, start, count - 1)
  {
  }

  lemma OneMoreWaits(limit: nat, cursor: Cursor, message: ChatMessage, waiting: map<nat, ChatMessage>)
    requires !cursor.overflowed && message.position > cursor.position && message.position !in cursor.pending
    requires waiting == cursor.pending[message.position := message]
    requires |waiting| <= limit && cursor.position + 1 !in waiting
    ensures var out := Accept(limit, cursor, MessageNote(message));
            out.cursor == Cursor(cursor.position, waiting, false) && DeliveredMessages(out.events) == []
  {
    assert Flush(cursor.position, waiting) == Outcome(Cursor(cursor.position, waiting, false), []);
    var out := Accept(limit, cursor, MessageNote(message));
    assert message.position in waiting;
    assert out.events == [Gap(Highest(waiting.Keys))];
    NoDelivery(out.events);
  }

  /** For every buffer bound: after as many later messages as the buffer holds, the missing one overflows,
      and nothing was delivered. */
  lemma HoleFillerOverflows(limit: nat, log: map<nat, ChatMessage>, start: nat)
    requires IsLog(log) && HasRange(log, start, start + 1 + limit)
    ensures var inputs := AllButNext(log, start, limit) + [Accepting(MessageNote(log[start + 1]))];
            var out := Run(limit, Fresh(start), inputs);
            out.cursor.overflowed && DeliveredMessages(out.events) == []
  {
    var before, message := AllButNext(log, start, limit), log[start + 1];
    RunOneMore(limit, Fresh(start), before, Accepting(MessageNote(message)));
    BufferFills(limit, log, start, limit);
    WaitingCount(log, start, limit);
    var cursor := Run(limit, Fresh(start), before).cursor;
    MissingOneOverflows(limit, cursor, message);
    DeliveredConcat(Run(limit, Fresh(start), before).events, [Overflowed]);
    NoDelivery([Overflowed]);
  }

  lemma MissingOneOverflows(limit: nat, cursor: Cursor, message: ChatMessage)
    requires !cursor.overflowed && |cursor.pending| == limit
    requires message.position > cursor.position && message.position !in cursor.pending
    ensures Accept(limit, cursor, MessageNote(message)) == FailOverflow(cursor)
  {
    assert cursor.pending[message.position := message].Keys == cursor.pending.Keys + {message.position};
  }
}
