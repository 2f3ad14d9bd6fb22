/** Acceptance of chat commands for one meeting (src/modules/chat/postgres-chat.repository.ts).

    Any number of `accept` transactions run interleaved, one SQL statement per step. A statement sees
    the rows committed so far; writes stay private to their transaction until it commits, and a
    rollback may happen before any statement. Retention deletes run alongside. Meetings share no row,
    so one meeting's stream is the whole story. */
module ChatLog {
  import opened ChatTypes
  import opened Runs

  datatype Command = Command(key: Key, content: Content)

  /** What `accept` answers: a new row, the row stored earlier, or an idempotency conflict. */
  datatype Decision = Stored(position: nat) | Replayed(position: nat) | Conflict

  datatype OutboxRow = OutboxRow(event: ChatMessage, attempts: nat, lockedBy: nat)

  /** How far one transaction has come. */
  datatype Phase =
    | Started
    | Authorized
    | Missed
    | HeadLocked
    | MissedAgain
    | Paced
    | Advanced(position: nat)
    | Inserted(message: ChatMessage)
    | Ready(message: ChatMessage, owner: nat)
    | Answered(underLock: bool)

  datatype Transaction = Transaction(command: Command, phase: Phase)

  /** A decision taken by a transaction, with the command it answers. */
  datatype Entry = Entry(command: Command, decision: Decision)

  /** `head`, `rows` and `outbox` are committed tables. `committed`, `deleted` and `decisions` only
      remember the past and influence no step. */
  datatype Store = Store(
    head: nat,
    rows: map<nat, ChatMessage>,
    outbox: seq<OutboxRow>,
    lock: Option<nat>,
    active: map<nat, Transaction>,
    committed: seq<ChatMessage>,
    deleted: set<nat>,
    decisions: seq<Entry>)

  datatype Step =
    | Begin(tx: nat, command: Command)
    | Authorize(tx: nat)
    | LookUp(tx: nat)
    | LockHead(tx: nat)
    | LookUpAgain(tx: nat)
    | PassSlowMode(tx: nat)
    | AdvanceHead(tx: nat)
    | Insert(tx: nat, eventId: nat)
    | InsertOutbox(tx: nat, owner: nat)
    | Commit(tx: nat)
    | Abort(tx: nat)
    | DeleteExpired(positions: set<nat>)

  function Initial(): Store {
    Store(0, map[], [], None, map[], [], {}, [])
  }

  /** `findExisting`: the committed row with this idempotency key, if any. */
  ghost function FindExisting(rows: map<nat, ChatMessage>, key: Key): (found: Option<nat>)
    ensures found.Some? ==> found.value in rows && rows[found.value].key == key
    ensures found.None? ==> forall p <- rows :: rows[p].key != key
  {
    if p :| p in rows && rows[p].key == key then Some(p) else None
  }

  /** `replayExisting`: the same content replays the stored row, anything else is a conflict. */
  function Replay(row: ChatMessage, command: Command): Decision {
    if row.content == command.content then Replayed(row.position) else Conflict
  }

  predicate HoldsLock(phase: Phase) {
    match phase
    case Started | Authorized | Missed => false
    case Answered(underLock) => underLock
    case _ => true
  }

  predicate AtCommit(phase: Phase) {
    phase.Ready? || phase.Answered?
  }

  function Required(step: Step): Phase -> bool {
    match step
    case Authorize(_) => (p: Phase) => p.Started?
    case LookUp(_) => (p: Phase) => p.Authorized?
    case LockHead(_) => (p: Phase) => p.Missed?
    case LookUpAgain(_) => (p: Phase) => p.HeadLocked?
    case PassSlowMode(_) => (p: Phase) => p.MissedAgain?
    case AdvanceHead(_) => (p: Phase) => p.Paced?
    case Insert(_, _) => (p: Phase) => p.Advanced?
    case InsertOutbox(_, _) => (p: Phase) => p.Inserted?
    case Commit(_) => (p: Phase) => AtCommit(p)
    case _ => (p: Phase) => true
  }

  ghost predicate Enabled(s: Store, step: Step) {
    match step
    case DeleteExpired(positions) => positions <= s.rows.Keys
    case Begin(tx, _) => tx !in s.active
    case LockHead(tx) => tx in s.active && s.active[tx].phase.Missed? && s.lock.None?
    case _ => step.tx in s.active && Required(step)(s.active[step.tx].phase)
  }

  function Move(s: Store, tx: nat, phase: Phase): Store
    requires tx in s.active
  {
    s.(active := s.active[tx := s.active[tx].(phase := phase)])
  }

  /** Ends a transaction; its lock, if it holds one, is released. */
  function Close(s: Store, tx: nat): Store {
    s.(active := s.active - {tx}, lock := if s.lock == Some(tx) then None else s.lock)
  }

  /** A lookup: a hit settles the answer, a miss lets the transaction go on. */
  ghost function Search(s: Store, tx: nat, missed: Phase, underLock: bool): Store
    requires tx in s.active
  {
    var command := s.active[tx].command;
    match FindExisting(s.rows, command.key)
    case None => Move(s, tx, missed)
    case Some(p) =>
      Move(s, tx, Answered(underLock)).(decisions := s.decisions + [Entry(command, Replay(s.rows[p], command))])
  }

  /** The two unique constraints of `chat_messages`. */
  ghost predicate ViolatesUnique(rows: map<nat, ChatMessage>, position: nat, key: Key) {
    position in rows || exists p :: p in rows && rows[p].key == key
  }

  /** `INSERT`: a violated constraint raises an error, which rolls the transaction back. */
  ghost function InsertRow(s: Store, tx: nat, eventId: nat): Store
    requires tx in s.active && s.active[tx].phase.Advanced?
  {
    var Transaction(command, phase) := s.active[tx];
    if ViolatesUnique(s.rows, phase.position, command.key) then Close(s, tx)
    else Move(s, tx, Inserted(ChatMessage(eventId, phase.position, command.key, command.content)))
  }

  function CommitTransaction(s: Store, tx: nat): Store
    requires tx in s.active && AtCommit(s.active[tx].phase)
  {
    var Transaction(command, phase) := s.active[tx];
    var closed := Close(s, tx);
    match phase
    case Ready(message, owner) =>
      closed.(head := message.position,
              rows := s.rows[message.position := message],
              outbox := s.outbox + [OutboxRow(message, 1, owner)],
              committed := s.committed + [message],
              decisions := s.decisions + [Entry(command, Stored(message.position))])
    case _ => closed
  }

  ghost function Apply(s: Store, step: Step): Store
    requires Enabled(s, step)
  {
    match step
    case Begin(tx, command) => s.(active := s.active[tx := Transaction(command, Started)])
    case Authorize(tx) => Move(s, tx, Authorized)
    case LookUp(tx) => Search(s, tx, Missed, false)
    case LockHead(tx) => Move(s, tx, HeadLocked).(lock := Some(tx))
    case LookUpAgain(tx) => Search(s, tx, MissedAgain, true)
    case PassSlowMode(tx) => Move(s, tx, Paced)
    case AdvanceHead(tx) => Move(s, tx, Advanced(s.head + 1))
    case Insert(tx, eventId) => InsertRow(s, tx, eventId)
    case InsertOutbox(tx, owner) => Move(s, tx, Ready(s.active[tx].phase.message, owner))
    case Commit(tx) => CommitTransaction(s, tx)
    case Abort(tx) => Close(s, tx)
    case DeleteExpired(positions) => s.(rows := s.rows - positions, deleted := s.deleted + positions)
  }

  ghost predicate Next(s: Store, t: Store) {
    exists step :: Enabled(s, step) && t == Apply(s, step)
  }

  // ---------------------------------------------------------------------------------------------
  // The invariant
  // ---------------------------------------------------------------------------------------------

  /** Commit order is position order: the n-th commit has position n, and the head counts commits. */
  ghost predicate Dense(head: nat, committed: seq<ChatMessage>) {
    && head == |committed|
    && forall i | 0 <= i < |committed| :: committed[i].position == i + 1
  }

  /** The table holds exactly the committed positions that retention has not deleted. */
  ghost predicate Retained(rows: map<nat, ChatMessage>, deleted: set<nat>, committed: seq<ChatMessage>) {
    && (forall p :: p in rows || p in deleted <==> 1 <= p <= |committed|)
    && rows.Keys !! deleted
    && forall p <- rows :: rows[p] == committed[p - 1]
  }

  ghost predicate UniqueKeys(rows: map<nat, ChatMessage>) {
    forall p, q | p in rows && q in rows && rows[p].key == rows[q].key :: p == q
  }

  ghost predicate KeyFree(rows: map<nat, ChatMessage>, key: Key) {
    forall p <- rows :: rows[p].key != key
  }

  ghost predicate LockSound(lock: Option<nat>, active: map<nat, Transaction>) {
    && (forall tx <- active :: HoldsLock(active[tx].phase) <==> lock == Some(tx))
    && (lock.Some? ==> lock.value in active)
  }

  /** What a transaction that decided to write knows about the committed tables. */
  ghost predicate WriterSound(head: nat, rows: map<nat, ChatMessage>, transaction: Transaction) {
    var Transaction(command, phase) := transaction;
    match phase
    case MissedAgain | Paced => KeyFree(rows, command.key)
    case Advanced(position) => KeyFree(rows, command.key) && position == head + 1
    case Inserted(message) => KeyFree(rows, command.key) && Writes(message, command, head + 1)
    case Ready(message, _) => KeyFree(rows, command.key) && Writes(message, command, head + 1)
    case _ => true
  }

  ghost predicate WritersSound(head: nat, rows: map<nat, ChatMessage>, active: map<nat, Transaction>) {
    forall tx <- active :: WriterSound(head, rows, active[tx])
  }

  ghost predicate Writes(message: ChatMessage, command: Command, position: nat) {
    message.position == position && message.key == command.key && message.content == command.content
  }

  /** The stored answers, oldest first. */
  function StoredEntries(decisions: seq<Entry>): seq<Entry> {
    if decisions == [] then []
    else
      var last := decisions[|decisions| - 1];
      StoredEntries(decisions[..|decisions| - 1]) + if last.decision.Stored? then [last] else []
  }

  /** Each stored answer belongs to exactly one committed message and one leased outbox row. */
  ghost predicate OneWriteEach(stored: seq<Entry>, committed: seq<ChatMessage>, outbox: seq<OutboxRow>) {
    && |stored| == |committed| == |outbox|
    && (forall i | 0 <= i < |stored| ::
          stored[i].decision == Stored(i + 1) && Writes(committed[i], stored[i].command, i + 1))
    && (forall i | 0 <= i < |outbox| :: outbox[i].event == committed[i] && outbox[i].attempts == 1)
  }

  ghost predicate TablesSound(s: Store) {
    && Dense(s.head, s.committed)
    && Retained(s.rows, s.deleted, s.committed)
    && UniqueKeys(s.rows)
    && OneWriteEach(StoredEntries(s.decisions), s.committed, s.outbox)
  }

  ghost predicate Inv(s: Store) {
    && TablesSound(s)
    && LockSound(s.lock, s.active)
    && WritersSound(s.head, s.rows, s.active)
  }

  lemma AppendEntry(decisions: seq<Entry>, entry: Entry)
    ensures StoredEntries(decisions + [entry])
            == StoredEntries(decisions) + if entry.decision.Stored? then [entry] else []
  {
    assert (decisions + [entry])[..|decisions + [entry]| - 1] == decisions;
  }

  /** A transaction may move to any phase that holds the lock as before and knows what it must. */
  lemma MoveKeepsInv(s: Store, tx: nat, phase: Phase)
    requires Inv(s) && tx in s.active && HoldsLock(phase) == HoldsLock(s.active[tx].phase)
    requires WriterSound(s.head, s.rows, s.active[tx].(phase := phase))
    ensures Inv(Move(s, tx, phase))
  {
  }

  lemma SearchKeepsInv(s: Store, tx: nat, missed: Phase, underLock: bool)
    requires Inv(s) && tx in s.active
    requires underLock == HoldsLock(s.active[tx].phase) == HoldsLock(missed)
    requires missed == Missed || missed == MissedAgain
    ensures Inv(Search(s, tx, missed, underLock))
  {
    var command := s.active[tx].command;
    var found := FindExisting(s.rows, command.key);
    if found.None? {
      MoveKeepsInv(s, tx, missed);
    } else {
      MoveKeepsInv(s, tx, Answered(underLock));
      AppendEntry(s.decisions, Entry(command, Replay(s.rows[found.value], command)));
    }
  }

  // The committed tables after a writer's commit, one by one

  lemma CommitStaysDense(head: nat, committed: seq<ChatMessage>, message: ChatMessage)
    requires Dense(head, committed) && message.position == head + 1
    ensures Dense(message.position, committed + [message])
  {
  }

  lemma CommitIsRetained(rows: map<nat, ChatMessage>, deleted: set<nat>, committed: seq<ChatMessage>, message: ChatMessage)
    requires Retained(rows, deleted, committed) && message.position == |committed| + 1
    ensures message.position !in rows && message.position !in deleted
    ensures Retained(rows[message.position := message], deleted, committed + [message])
  {
    assert message.position !in rows && message.position !in deleted;
  }

  lemma CommitKeepsKeys(rows: map<nat, ChatMessage>, message: ChatMessage)
    requires UniqueKeys(rows) && KeyFree(rows, message.key)
    ensures UniqueKeys(rows[message.position := message])
  {
  }

  lemma CommitWritesOnce(decisions: seq<Entry>, committed: seq<ChatMessage>, outbox: seq<OutboxRow>,
                         command: Command, message: ChatMessage, owner: nat)
    requires OneWriteEach(StoredEntries(decisions), committed, outbox)
    requires Writes(message, command, |committed| + 1)
    ensures OneWriteEach(StoredEntries(decisions + [Entry(command, Stored(message.position))]),
                         committed + [message], outbox + [OutboxRow(message, 1, owner)])
  {
    AppendEntry(decisions, Entry(command, Stored(message.position)));
    OneMoreWrite(StoredEntries(decisions), committed, outbox, command, message, owner);
  }

  lemma OneMoreWrite(stored: seq<Entry>, committed: seq<ChatMessage>, outbox: seq<OutboxRow>,
                     command: Command, message: ChatMessage, owner: nat)
    requires OneWriteEach(stored, committed, outbox) && Writes(message, command, |committed| + 1)
    ensures OneWriteEach(stored + [Entry(command, Stored(message.position))],
                         committed + [message], outbox + [OutboxRow(message, 1, owner)])
  {
  }

  lemma CommitKeepsTables(s: Store, command: Command, message: ChatMessage, owner: nat)
    requires TablesSound(s) && KeyFree(s.rows, command.key) && Writes(message, command, s.head + 1)
    ensures Dense(message.position, s.committed + [message])
    ensures Retained(s.rows[message.position := message], s.deleted, s.committed + [message])
    ensures UniqueKeys(s.rows[message.position := message])
    ensures OneWriteEach(StoredEntries(s.decisions + [Entry(command, Stored(message.position))]),
                         s.committed + [message], s.outbox + [OutboxRow(message, 1, owner)])
  {
    CommitStaysDense(s.head, s.committed, message);
    CommitIsRetained(s.rows, s.deleted, s.committed, message);
    CommitKeepsKeys(s.rows, message);
    CommitWritesOnce(s.decisions, s.committed, s.outbox, command, message, owner);
  }

  lemma CommitKeepsInv(s: Store, tx: nat)
    requires Inv(s) && tx in s.active && AtCommit(s.active[tx].phase)
    ensures Inv(CommitTransaction(s, tx))
  {
    var t := CommitTransaction(s, tx);
    var Transaction(command, phase) := s.active[tx];
    if phase.Ready? {
      assert WriterSound(s.head, s.rows, s.active[tx]);
      CommitKeepsTables(s, command, phase.message, phase.owner);
      forall other <- t.active ensures WriterSound(t.head, t.rows, t.active[other]) {
        assert !HoldsLock(s.active[other].phase);
      }
    }
  }

  lemma DeleteKeepsInv(s: Store, positions: set<nat>)
    requires Inv(s) && positions <= s.rows.Keys
    ensures Inv(Apply(s, DeleteExpired(positions)))
  {
    var t := Apply(s, DeleteExpired(positions));
    forall tx <- t.active ensures WriterSound(t.head, t.rows, t.active[tx]) {
      assert WriterSound(s.head, s.rows, s.active[tx]);
    }
  }

  /** Every step keeps the invariant. */
  lemma StepKeepsInv(s: Store, step: Step)
    requires Inv(s) && Enabled(s, step)
    ensures Inv(Apply(s, step))
  {
    match step {
      case LookUp(tx) => SearchKeepsInv(s, tx, Missed, false);
      case LookUpAgain(tx) => SearchKeepsInv(s, tx, MissedAgain, true);
      case Commit(tx) => CommitKeepsInv(s, tx);
      case DeleteExpired(positions) => DeleteKeepsInv(s, positions);
      case Begin(_, _) =>
      case LockHead(tx) => LockKeepsInv(s, tx);
      case Insert(tx, eventId) => InsertKeepsInv(s, tx, eventId);
      case Abort(tx) => AbortKeepsInv(s, tx);
      case _ =>
        assert WriterSound(s.head, s.rows, s.active[step.tx]);
        MoveKeepsInv(s, step.tx, Apply(s, step).active[step.tx].phase);
    }
  }

  lemma LockKeepsInv(s: Store, tx: nat)
    requires Inv(s) && Enabled(s, LockHead(tx))
    ensures Inv(Apply(s, LockHead(tx)))
  {
  }

  lemma InsertKeepsInv(s: Store, tx: nat, eventId: nat)
    requires Inv(s) && Enabled(s, Insert(tx, eventId))
    ensures Inv(Apply(s, Insert(tx, eventId)))
  {
    assert WriterSound(s.head, s.rows, s.active[tx]);
  }

  lemma AbortKeepsInv(s: Store, tx: nat)
    requires Inv(s) && tx in s.active
    ensures Inv(Close(s, tx))
  {
  }

  /** Over every interleaving, including rollbacks and retention, positions are dense, commit order
      is position order, and the stored rows are the undeleted positions. */
  lemma LogStaysDense(states: seq<Store>)
    requires IsRun(Next, states) && states[0] == Initial()
    ensures forall i | 0 <= i < |states| :: Inv(states[i])
  {
    forall s, t | Inv(s) && Next(s, t) ensures Inv(t) {
      var step :| Enabled(s, step) && t == Apply(s, step);
      StepKeepsInv(s, step);
    }
    Invariance(Inv, Next, states);
  }

  // ---------------------------------------------------------------------------------------------
  // What the invariant gives
  // ---------------------------------------------------------------------------------------------

  /** A single-snapshot reader that sees head N sees every committed and undeleted position up to N,
      each with the event committed there. */
  lemma SnapshotIsComplete(states: seq<Store>, i: nat, position: nat)
    requires IsRun(Next, states) && states[0] == Initial() && i < |states|
    requires 1 <= position <= states[i].head
    ensures position in states[i].rows <==> position !in states[i].deleted
    ensures |states[i].committed| == states[i].head
    ensures position in states[i].rows ==> states[i].rows[position] == states[i].committed[position - 1]
  {
    LogStaysDense(states);
    assert Inv(states[i]);
  }

  /** The insert never meets a unique violation: whoever reaches it is the only writer and writes a
      free position under a free key. */
  lemma InsertNeverViolates(s: Store, tx: nat, other: nat)
    requires Inv(s) && tx in s.active && s.active[tx].phase.Advanced?
    requires other in s.active && other != tx
    ensures !ViolatesUnique(s.rows, s.active[tx].phase.position, s.active[tx].command.key)
    ensures !HoldsLock(s.active[other].phase)
  {
    assert WriterSound(s.head, s.rows, s.active[tx]);
    assert s.lock == Some(tx);
  }

  /** `t` remembers everything `s` remembers. */
  ghost predicate Grown(s: Store, t: Store) {
    && s.head <= t.head
    && s.committed <= t.committed
    && s.outbox <= t.outbox
    && s.decisions <= t.decisions
    && s.deleted <= t.deleted
  }

  lemma StepGrows(s: Store, step: Step)
    requires Inv(s) && Enabled(s, step)
    ensures Grown(s, Apply(s, step))
  {
    if step.Commit? { assert WriterSound(s.head, s.rows, s.active[step.tx]); }
  }

  /** What one step does to the committed events: nothing, or one more at the next position. */
  lemma StepCommits(s: Store, step: Step)
    requires Inv(s) && Enabled(s, step)
    ensures var after := Apply(s, step).committed;
            || after == s.committed
            || (exists message: ChatMessage ::
                  message.position == |s.committed| + 1 && after == s.committed + [message])
  {
    if step.Commit? { assert WriterSound(s.head, s.rows, s.active[step.tx]); }
  }

  lemma OutboxIsCommitted(s: Store, i: nat)
    requires Inv(s) && i < |s.outbox|
    ensures var event := s.outbox[i].event;
            1 <= event.position <= |s.committed| && s.committed[event.position - 1] == event
  {
    assert OneWriteEach(StoredEntries(s.decisions), s.committed, s.outbox);
    assert s.committed[i].position == i + 1;
  }

  /** The head never goes back, and committed events, outbox rows and answers are never rewritten. */
  lemma HistoryOnlyGrows(states: seq<Store>, i: nat, j: nat)
    requires IsRun(Next, states) && states[0] == Initial() && i <= j < |states|
    ensures Grown(states[i], states[j])
    ensures forall p <- states[j].rows | p <= states[i].head ::
              p in states[i].rows && states[i].rows[p] == states[j].rows[p]
  {
    LogStaysDense(states);
    var sound := (s: Store, t: Store) => Inv(s) && Next(s, t);
    forall a, b | 0 <= a && b == a + 1 && b < |states| ensures sound(states[a], states[b]) {
      assert Inv(states[a]);
    }
    forall s, t | sound(s, t) ensures Grown(s, t) {
      var step :| Enabled(s, step) && t == Apply(s, step);
      StepGrows(s, step);
    }
    Progress(Grown, sound, states, i, j);
    assert Inv(states[i]) && Inv(states[j]);
    OldRowsStay(states[i], states[j]);
  }

  /** A row of an old position that is still there was there before, unchanged. */
  lemma OldRowsStay(s: Store, t: Store)
    requires Inv(s) && Inv(t) && Grown(s, t)
    ensures forall p <- t.rows | p <= s.head :: p in s.rows && s.rows[p] == t.rows[p]
  {
    forall p <- t.rows | p <= s.head ensures p in s.rows && s.rows[p] == t.rows[p] {
      assert p !in t.deleted && 1 <= p;
      assert p in s.rows;
      assert s.committed[p - 1] == t.committed[p - 1];
    }
  }

  /** Every answer from `from` on that concerns the row's key replays the row or is a conflict. */
  ghost predicate AnswersAgree(decisions: seq<Entry>, from: nat, row: ChatMessage) {
    && from <= |decisions|
    && forall k | from <= k < |decisions| && decisions[k].command.key == row.key ::
         decisions[k].decision == Replay(row, decisions[k].command)
  }

  lemma StepAgrees(s: Store, step: Step, position: nat, from: nat)
    requires Inv(s) && Enabled(s, step) && position in s.rows && position in Apply(s, step).rows
    requires AnswersAgree(s.decisions, from, s.rows[position])
    ensures AnswersAgree(Apply(s, step).decisions, from, s.rows[position])
    ensures Apply(s, step).rows[position] == s.rows[position]
  {
    match step {
      case Commit(tx) => assert WriterSound(s.head, s.rows, s.active[tx]);
      case LookUp(tx) => SearchAgrees(s, tx, Missed, false, position, from);
      case LookUpAgain(tx) => SearchAgrees(s, tx, MissedAgain, true, position, from);
      case _ =>
    }
  }

  lemma SearchAgrees(s: Store, tx: nat, missed: Phase, underLock: bool, position: nat, from: nat)
    requires UniqueKeys(s.rows) && tx in s.active && position in s.rows
    requires AnswersAgree(s.decisions, from, s.rows[position])
    ensures AnswersAgree(Search(s, tx, missed, underLock).decisions, from, s.rows[position])
  {
  }

  /** While a row is retained, every command with its key that gets its answer gets this row's position
      if its content is the row's, and a conflict otherwise, whatever else runs alongside. */
  lemma IdempotentWhileRetained(states: seq<Store>, from: nat, to: nat, position: nat, k: nat)
    requires IsRun(Next, states) && states[0] == Initial() && from <= to < |states|
    requires forall i | from <= i <= to :: position in states[i].rows
    requires |states[from].decisions| <= k < |states[to].decisions|
    requires states[to].decisions[k].command.key == states[from].rows[position].key
    ensures var row, answered := states[from].rows[position], states[to].decisions[k];
            && (answered.command.content == row.content ==> answered.decision == Replayed(position))
            && (answered.command.content != row.content ==> answered.decision == Conflict)
  {
    LogStaysDense(states);
    var row := states[from].rows[position];
    var first := |states[from].decisions|;
    var holds := (s: Store) =>
      Inv(s) && position in s.rows && s.rows[position] == row && AnswersAgree(s.decisions, first, row);
    var next := (s: Store, t: Store) => Next(s, t) && position in t.rows;
    var part := states[from..to + 1];
    SubRun(Next, states, from, to);
    forall a, b | 0 <= a && b == a + 1 && b < |part| ensures next(part[a], part[b]) {
      assert Next(part[a], part[b]);
      assert part[b] == states[from + b];
    }
    forall s, t | holds(s) && next(s, t) ensures holds(t) {
      var step :| Enabled(s, step) && t == Apply(s, step);
      StepKeepsInv(s, step);
      StepAgrees(s, step, position, first);
    }
    assert Inv(states[from]);
    Invariance(holds, next, part);
    assert holds(part[to - from]) && part[to - from] == states[to];
    assert row.position == position;
  }

  // ---------------------------------------------------------------------------------------------
  // Retention frees the idempotency key
  // ---------------------------------------------------------------------------------------------

  /** A key was committed again only where its earlier row was deleted. */
  ghost predicate ReuseSound(committed: seq<ChatMessage>, deleted: set<nat>) {
    forall a, b | 0 <= a < b < |committed| && committed[a].key == committed[b].key :: a + 1 in deleted
  }

  lemma ReuseStep(s: Store, step: Step)
    requires Inv(s) && ReuseSound(s.committed, s.deleted) && Enabled(s, step)
    ensures ReuseSound(Apply(s, step).committed, Apply(s, step).deleted)
  {
    if step.Commit? && s.active[step.tx].phase.Ready? {
      assert WriterSound(s.head, s.rows, s.active[step.tx]);
      ReuseCommit(s, s.active[step.tx].phase.message);
    }
  }

  lemma ReuseCommit(s: Store, message: ChatMessage)
    requires Inv(s) && ReuseSound(s.committed, s.deleted) && KeyFree(s.rows, message.key)
    ensures ReuseSound(s.committed + [message], s.deleted)
  {
    forall a | 0 <= a < |s.committed| && s.committed[a].key == message.key ensures a + 1 in s.deleted {
      assert a + 1 in s.rows || a + 1 in s.deleted;
    }
  }

  /** In every run, of two committed messages with one key the earlier was deleted before the later. */
  lemma KeyReusedOnlyAfterDeletion(states: seq<Store>, i: nat, a: nat, b: nat)
    requires IsRun(Next, states) && states[0] == Initial() && i < |states|
    requires a < b < |states[i].committed| && states[i].committed[a].key == states[i].committed[b].key
    ensures a + 1 in states[i].deleted && a + 1 !in states[i].rows
  {
    var inv := (s: Store) => Inv(s) && ReuseSound(s.committed, s.deleted);
    forall s, t | inv(s) && Next(s, t) ensures inv(t) {
      var step :| Enabled(s, step) && t == Apply(s, step);
      StepKeepsInv(s, step);
      ReuseStep(s, step);
    }
    assert inv(states[0]);
    Invariance(inv, Next, states);
    assert inv(states[i]);
  }

  /** The store while one transaction runs alone. */
  function During(s: Store, tx: nat, command: Command, phase: Phase): Store {
    s.(active := s.active[tx := Transaction(command, phase)], lock := if HoldsLock(phase) then Some(tx) else s.lock)
  }

  function Written(s: Store, command: Command, eventId: nat): ChatMessage {
    ChatMessage(eventId, s.head + 1, command.key, command.content)
  }

  /** The store after it stored its message. */
  function AfterStoring(s: Store, command: Command, eventId: nat, owner: nat): Store {
    var message := Written(s, command, eventId);
    s.(head := message.position, rows := s.rows[message.position := message],
       outbox := s.outbox + [OutboxRow(message, 1, owner)], committed := s.committed + [message],
       decisions := s.decisions + [Entry(command, Stored(message.position))])
  }

  function AlonePhase(s: Store, command: Command, eventId: nat, owner: nat, k: nat): Phase {
    match k
    case 0 => Started
    case 1 => Authorized
    case 2 => Missed
    case 3 => HeadLocked
    case 4 => MissedAgain
    case 5 => Paced
    case 6 => Advanced(s.head + 1)
    case 7 => Inserted(Written(s, command, eventId))
    case _ => Ready(Written(s, command, eventId), owner)
  }

  function AloneStep(tx: nat, eventId: nat, owner: nat, k: nat): Step {
    match k
    case 0 => Authorize(tx)
    case 1 => LookUp(tx)
    case 2 => LockHead(tx)
    case 3 => LookUpAgain(tx)
    case 4 => PassSlowMode(tx)
    case 5 => AdvanceHead(tx)
    case 6 => Insert(tx, eventId)
    case _ => InsertOutbox(tx, owner)
  }

  /** A lookup of a transaction that runs alone misses a free key. */
  lemma AloneMisses(s: Store, tx: nat, command: Command)
    requires KeyFree(s.rows, command.key)
    ensures Next(During(s, tx, command, Authorized), During(s, tx, command, Missed))
    ensures Next(During(s, tx, command, HeadLocked), During(s, tx, command, MissedAgain))
  {
    var here, there := During(s, tx, command, Authorized), During(s, tx, command, HeadLocked);
    assert FindExisting(s.rows, command.key) == None;
    assert Enabled(here, LookUp(tx)) && Apply(here, LookUp(tx)) == During(s, tx, command, Missed);
    assert Enabled(there, LookUpAgain(tx)) && Apply(there, LookUpAgain(tx)) == During(s, tx, command, MissedAgain);
  }

  lemma AloneLocks(s: Store, tx: nat, command: Command)
    requires s.lock.None?
    ensures Next(During(s, tx, command, Missed), During(s, tx, command, HeadLocked))
  {
    var here := During(s, tx, command, Missed);
    assert Enabled(here, LockHead(tx)) && Apply(here, LockHead(tx)) == During(s, tx, command, HeadLocked);
  }

  /** One statement of a transaction that runs alone with a free key, up to the second lookup. */
  lemma AloneReads(s: Store, tx: nat, command: Command, eventId: nat, owner: nat, k: nat)
    requires s.lock.None? && KeyFree(s.rows, command.key) && k < 4
    ensures Next(During(s, tx, command, AlonePhase(s, command, eventId, owner, k)),
                 During(s, tx, command, AlonePhase(s, command, eventId, owner, k + 1)))
  {
    match k {
      case 0 =>
        var here := During(s, tx, command, Started);
        assert Enabled(here, Authorize(tx)) && Apply(here, Authorize(tx)) == During(s, tx, command, Authorized);
      case 2 => AloneLocks(s, tx, command);
      case _ => AloneMisses(s, tx, command);
    }
  }

  /** The insert, which meets no unique constraint. */
  lemma AloneInserts(s: Store, tx: nat, command: Command, eventId: nat)
    requires Inv(s) && KeyFree(s.rows, command.key)
    ensures Next(During(s, tx, command, Advanced(s.head + 1)), During(s, tx, command, Inserted(Written(s, command, eventId))))
  {
    var here := During(s, tx, command, Advanced(s.head + 1));
    var there := During(s, tx, command, Inserted(Written(s, command, eventId)));
    assert Enabled(here, Insert(tx, eventId));
    assert !ViolatesUnique(s.rows, s.head + 1, command.key);
    assert Apply(here, Insert(tx, eventId)) == there;
  }

  /** The other statements from there on. */
  lemma AloneWrites(s: Store, tx: nat, command: Command, eventId: nat, owner: nat, k: nat)
    requires 4 <= k < 8 && k != 6
    ensures Next(During(s, tx, command, AlonePhase(s, command, eventId, owner, k)),
                 During(s, tx, command, AlonePhase(s, command, eventId, owner, k + 1)))
  {
    var here := During(s, tx, command, AlonePhase(s, command, eventId, owner, k));
    var there := During(s, tx, command, AlonePhase(s, command, eventId, owner, k + 1));
    var step := AloneStep(tx, eventId, owner, k);
    assert Enabled(here, step);
    assert Apply(here, step) == there;
  }

  lemma {:induction false} AloneReaches(states: seq<Store>, s: Store, tx: nat, command: Command, eventId: nat, owner: nat, k: nat)
    requires IsRun(Next, states) && Inv(s) && s.lock.None? && KeyFree(s.rows, command.key) && k <= 8
    requires states[|states| - 1] == During(s, tx, command, AlonePhase(s, command, eventId, owner, k))
    ensures exists more: seq<Store> ::
              IsRun(Next, more) && states <= more
              && more[|more| - 1] == During(s, tx, command, AlonePhase(s, command, eventId, owner, 8))
    decreases 8 - k
  {
    if k < 8 {
      if k < 4 {
        AloneReads(s, tx, command, eventId, owner, k);
      } else if k == 6 {
        AloneInserts(s, tx, command, eventId);
      } else {
        AloneWrites(s, tx, command, eventId, owner, k);
      }
      var next := During(s, tx, command, AlonePhase(s, command, eventId, owner, k + 1));
      ExtendRun(Next, states, next);
      AloneReaches(states + [next], s, tx, command, eventId, owner, k + 1);
      var more: seq<Store> :|
        IsRun(Next, more) && states + [next] <= more
        && more[|more| - 1] == During(s, tx, command, AlonePhase(s, command, eventId, owner, 8));
      assert states <= states + [next] <= more;
    }
  }

  /** `more` continues the run `states` to one more stored message. */
  ghost predicate Stores(states: seq<Store>, more: seq<Store>, command: Command, eventId: nat, owner: nat) {
    && IsRun(Next, more) && states != [] && states <= more
    && more[|more| - 1] == AfterStoring(states[|states| - 1], command, eventId, owner)
  }

  /** A command whose key is free is stored at the next position when it runs alone: so a key can be stored
      anew exactly when no retained row has it. */
  lemma FreeKeyIsStored(states: seq<Store>, tx: nat, command: Command, eventId: nat, owner: nat)
    requires IsRun(Next, states) && Inv(states[|states| - 1])
    requires var s := states[|states| - 1]; s.lock.None? && tx !in s.active && KeyFree(s.rows, command.key)
    ensures exists more: seq<Store> :: Stores(states, more, command, eventId, owner)
  {
    var s := states[|states| - 1];
    var begun := During(s, tx, command, Started);
    assert begun == Apply(s, Begin(tx, command)) && Next(s, begun);
    ExtendRun(Next, states, begun);
    AloneReaches(states + [begun], s, tx, command, eventId, owner, 0);
    var ready := During(s, tx, command, AlonePhase(s, command, eventId, owner, 8));
    var more: seq<Store> :| IsRun(Next, more) && states + [begun] <= more && more[|more| - 1] == ready;
    var final := AfterStoring(s, command, eventId, owner);
    CommitsAlone(s, tx, command, eventId, owner);
    ExtendRun(Next, more, final);
    assert states <= states + [begun] <= more <= more + [final];
    assert (more + [final])[|more + [final]| - 1] == final;
    assert Stores(states, more + [final], command, eventId, owner);
  }

  lemma CommitsAlone(s: Store, tx: nat, command: Command, eventId: nat, owner: nat)
    requires s.lock.None? && tx !in s.active
    ensures Next(During(s, tx, command, AlonePhase(s, command, eventId, owner, 8)), AfterStoring(s, command, eventId, owner))
  {
    var ready := During(s, tx, command, AlonePhase(s, command, eventId, owner, 8));
    assert Enabled(ready, Commit(tx));
    assert s.active[tx := Transaction(command, ready.active[tx].phase)] - {tx} == s.active;
    assert Apply(ready, Commit(tx)) == AfterStoring(s, command, eventId, owner);
  }

  /** `more` continues the run `states`, writes nothing, and answers the command. */
  ghost predicate Answers(states: seq<Store>, more: seq<Store>, command: Command, decision: Decision) {
    && IsRun(Next, more) && states != [] && states <= more
    && var s := states[|states| - 1];
       more[|more| - 1] == s.(decisions := s.decisions + [Entry(command, decision)])
  }

  /** A command whose key is taken, submitted by a transaction that runs alone, is answered before it waits
      for the lock: a repeated command gets the position stored for it, one with other content a
      conflict, and nothing is written. */
  lemma TakenKeyIsAnswered(states: seq<Store>, tx: nat, command: Command, position: nat)
    requires IsRun(Next, states) && Inv(states[|states| - 1])
    requires var s := states[|states| - 1];
             tx !in s.active && position in s.rows && s.rows[position].key == command.key
    ensures var row := states[|states| - 1].rows[position];
            && (row.content == command.content ==> exists more :: Answers(states, more, command, Replayed(position)))
            && (row.content != command.content ==> exists more :: Answers(states, more, command, Conflict))
  {
    var s := states[|states| - 1];
    var decision := if s.rows[position].content == command.content then Replayed(position) else Conflict;
    var begun, authorized := During(s, tx, command, Started), During(s, tx, command, Authorized);
    BeginsAndAuthorizes(s, tx, command);
    ExtendRun(Next, states, begun);
    ExtendRun(Next, states + [begun], authorized);
    HitIsAnswered(s, tx, command, position);
    var found := During(s, tx, command, Answered(false)).(decisions := s.decisions + [Entry(command, decision)]);
    var done := s.(decisions := s.decisions + [Entry(command, decision)]);
    AnswerEnds(s, tx, command, decision);
    ExtendRun(Next, states + [begun] + [authorized], found);
    ExtendRun(Next, states + [begun] + [authorized] + [found], done);
    assert Answers(states, states + [begun] + [authorized] + [found] + [done], command, decision);
  }

  lemma BeginsAndAuthorizes(s: Store, tx: nat, command: Command)
    requires tx !in s.active
    ensures Next(s, During(s, tx, command, Started))
    ensures Next(During(s, tx, command, Started), During(s, tx, command, Authorized))
  {
    var begun, authorized := During(s, tx, command, Started), During(s, tx, command, Authorized);
    assert Enabled(s, Begin(tx, command)) && Apply(s, Begin(tx, command)) == begun;
    assert Enabled(begun, Authorize(tx)) && Apply(begun, Authorize(tx)) == authorized;
  }

  lemma HitIsAnswered(s: Store, tx: nat, command: Command, position: nat)
    requires Inv(s) && tx !in s.active && position in s.rows && s.rows[position].key == command.key
    ensures var decision := if s.rows[position].content == command.content then Replayed(position) else Conflict;
            Next(During(s, tx, command, Authorized),
                 During(s, tx, command, Answered(false)).(decisions := s.decisions + [Entry(command, decision)]))
  {
    var here := During(s, tx, command, Authorized);
    assert Enabled(here, LookUp(tx));
    var found := FindExisting(s.rows, command.key);
    assert found == Some(position) && s.rows[position].position == position;
    assert Apply(here, LookUp(tx)).active == During(s, tx, command, Answered(false)).active;
  }

  lemma AnswerEnds(s: Store, tx: nat, command: Command, decision: Decision)
    requires Inv(s) && tx !in s.active
    ensures Next(During(s, tx, command, Answered(false)).(decisions := s.decisions + [Entry(command, decision)]),
                 s.(decisions := s.decisions + [Entry(command, decision)]))
  {
    var here := During(s, tx, command, Answered(false)).(decisions := s.decisions + [Entry(command, decision)]);
    assert Enabled(here, Commit(tx));
    assert here.active - {tx} == s.active;
    assert Apply(here, Commit(tx)) == s.(decisions := s.decisions + [Entry(command, decision)]);
  }

  /** Retention deletes the only row of a stream. */
  lemma SweepsOnlyRow(states: seq<Store>, message: ChatMessage)
    requires IsRun(Next, states) && states[0] == Initial()
    requires var s := states[|states| - 1]; s.rows == map[1 := message] && s.lock.None? && s.active == map[]
    ensures var s := states[|states| - 1];
            var swept := s.(rows := map[], deleted := s.deleted + {1});
            IsRun(Next, states + [swept]) && Inv(swept)
  {
    var s := states[|states| - 1];
    var swept := s.(rows := map[], deleted := s.deleted + {1});
    LogStaysDense(states);
    assert Inv(s);
    assert s.rows - {1} == map[];
    assert Enabled(s, DeleteExpired({1})) && Apply(s, DeleteExpired({1})) == swept;
    StepKeepsInv(s, DeleteExpired({1}));
    assert Next(s, swept);
    ExtendRun(Next, states, swept);
  }

  /** Idempotency ends with retention: there is a run that stores the same command twice. */
  lemma RetentionFreesTheKey(command: Command)
    ensures exists states: seq<Store> ::
              && IsRun(Next, states) && states[0] == Initial()
              && var last := states[|states| - 1];
                 |last.committed| == 2 && last.committed[0].key == last.committed[1].key == command.key
  {
    assert Inv(Initial());
    FreeKeyIsStored([Initial()], 0, command, 0, 0);
    var once: seq<Store> :| Stores([Initial()], once, command, 0, 0);
    var s := once[|once| - 1];
    assert once[0] == [Initial()][0];
    assert s == AfterStoring(Initial(), command, 0, 0);
    SweepsOnlyRow(once, Written(Initial(), command, 0));
    var swept := s.(rows := map[], deleted := s.deleted + {1});
    var run := once + [swept];
    assert run[|run| - 1] == swept && run[0] == once[0];
    FreeKeyIsStored(run, 0, command, 1, 0);
    var twice: seq<Store> :| Stores(run, twice, command, 1, 0);
    assert twice[0] == run[0];
    assert twice[|twice| - 1].committed == s.committed + [Written(swept, command, 1)];
  }
}
