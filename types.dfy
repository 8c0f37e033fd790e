/** The records the client keeps: chat messages (src/types/chats.types.ts)
    and the `{id, title}` session entries of the sidebar. */
module Types {

  datatype Sender = User | Bot

  /** One message of a conversation. `isNew` marks a bot reply that has not
      finished its typing animation yet. */
  datatype Message = Message(from: Sender, text: string, isNew: bool)

  /** One entry of the session registry. `id` is `<username>:<epoch millis>`;
      `title` is fixed when the entry is created. */
  datatype Session = Session(id: string, title: string)
}
