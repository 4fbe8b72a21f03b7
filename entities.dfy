/** The records the client stores hold, with the fields the modelled code
    reads. Identifiers, names and timestamps are opaque strings. */
module Entities {
  import opened Common

  /** The `type` of a message: 'text' | 'image' | 'emoji'. */
  datatype MessageKind = Text | Image | Emoji

  /** A user as it appears among a chat's participants, in the user list and
      as a message's sender (`_id`, `name`, `email`, `avatar?`, `isOnline?`). */
  datatype Participant = Participant(
    id: string,
    name: string,
    email: string,
    avatar: Option<string>,
    isOnline: Option<bool>)

  /** A message of one chat. */
  datatype Message = Message(
    id: string,
    chat: string,
    sender: Participant,
    content: string,
    kind: MessageKind,
    imageUrl: Option<string>,
    createdAt: string)

  /** A chat's `lastMessage` as the client receives it: null before any
      message, the message itself when the reply populated it (the chat
      list), or only the message's id when it did not (get-or-create, which
      populates the participants alone). */
  datatype LastMessage = NoLastMessage | Populated(message: Message) | IdOnly(messageId: string)

  /** A conversation with its participants and its most recent message. */
  datatype Chat = Chat(
    id: string,
    participants: seq<Participant>,
    lastMessage: LastMessage,
    updatedAt: string)

  /** The signed-in user held by the auth store (its key is `id`, not `_id`). */
  datatype User = User(id: string, name: string, email: string, avatar: Option<string>)
}
