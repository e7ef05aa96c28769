/** The send guard and message attribution of components/chat/ChatWindow.tsx. */
module ChatWindow {
  import opened Wrappers
  import opened Types
  import Text

  /** What `onSendMessage` is called with: the window's chat id and the message. */
  datatype Sending = Sending(chatId: string, message: ChatMessage)

  /** `handleSendMessage`: nothing for blank text or in a read-only window;
      otherwise one message from the current user with the text as typed.
      `Date.now()` and the ISO time are the parameters `id` and `timestamp`. */
  function MessageSending(chat: Chat, currentUser: User, newMessage: string, isReadOnly: bool,
                          id: Id, timestamp: string): (r: Option<Sending>)
    ensures r.Some? <==> !isReadOnly && exists i :: 0 <= i < |newMessage| && !Text.IsSpace(newMessage[i])
    ensures r.Some? ==>
              r.value == Sending(chat.id, ChatMessage(id, currentUser.id, newMessage, timestamp))
  {
    Text.TrimEmptyIff(newMessage);
    if Text.Trim(newMessage) == [] || isReadOnly then None
    else Some(Sending(chat.id, ChatMessage(id, currentUser.id, newMessage, timestamp)))
  }

  /** `isMyMessage`: in the read-only (admin) view the lawyer's messages are
      drawn as the sender's side, otherwise the current user's. */
  predicate IsMyMessage(chat: Chat, currentUser: User, isReadOnly: bool, msg: ChatMessage) {
    if isReadOnly then msg.senderId == chat.lawyerId else msg.senderId == currentUser.id
  }

  /** A message sent from a window is drawn as one's own in that window, and
      the read-only view attributes messages the same way whoever looks. */
  lemma SentMessageIsMine(chat: Chat, currentUser: User, newMessage: string, id: Id, timestamp: string,
                          viewer: User, msg: ChatMessage)
    requires MessageSending(chat, currentUser, newMessage, false, id, timestamp).Some?
    ensures IsMyMessage(chat, currentUser, false, MessageSending(chat, currentUser, newMessage, false, id, timestamp).value.message)
    ensures IsMyMessage(chat, viewer, true, msg) == IsMyMessage(chat, currentUser, true, msg)
  {
  }
}
