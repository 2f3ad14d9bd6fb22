/** Values shared by the chat log, the history reader and the live path. Digests, UUIDs and
    ciphertexts are opaque numbers with equality. */
module ChatTypes {

  datatype Option<+T> = None | Some(value: T)

  /** Idempotency key of a command inside one meeting. */
  datatype Key = Key(sender: nat, clientMessageId: nat)

  /** The parts of a command that a replay must repeat exactly. */
  datatype Content = Content(ciphertextHash: nat, groupId: nat, epoch: nat, contentType: nat)

  /** One durable chat event; `eventId` is the row identifier reused by every delivery of it. */
  datatype ChatMessage = ChatMessage(eventId: nat, position: nat, key: Key, content: Content)

  /** What the fan-out service hands to a listener. */
  datatype Notification = MessageNote(message: ChatMessage) | HighWatermark(position: nat)

  /** The stream position a notification speaks about. */
  function NotePosition(note: Notification): nat {
    match note
    case MessageNote(message) => message.position
    case HighWatermark(position) => position
  }
}
