/**
 * The chat message entity: an object whose read-by set is updated in place.
 */
module ChatMessages {

  import opened Base
  import opened Entities

  /** The readers recorded in a (possibly null) read-by set. */
  function Readers(readBy: Option<set<string>>): set<string> {
    if readBy.Some? then readBy.value else {}
  }

  /** The repository's "unread by this user" test: a null read-by collection has no readers. */
  predicate UnreadBy(m: ChatMessageData, userId: string) {
    userId !in Readers(m.readBy)
  }

  class ChatMessage {
    var content: Option<string>
    var bugId: Option<Id>
    var senderId: Option<Id>
    var recipientId: Option<Id>
    var messageType: MessageType
    var readBy: Option<set<string>>

    /** The message as it is serialised. */
    function Data(): ChatMessageData
      reads this
    {
      ChatMessageData(content, bugId, senderId, recipientId, messageType, readBy)
    }

    /** `new ChatMessage()`: the field initialisers give type CHAT and an empty read-by set. */
    constructor ()
      ensures Data() == ChatMessageData(None, None, None, None, MessageType.Chat, Some({}))
    {
      content := None;
      bugId := None;
      senderId := None;
      recipientId := None;
      messageType := MessageType.Chat;
      readBy := Some({});
    }

    /**
     * `ChatMessage.builder()...build()`. Lombok's builder does not apply the
     * field initialisers, so content, recipient and the read-by set are null.
     */
    constructor Build(bugId: Option<Id>, senderId: Option<Id>, messageType: MessageType)
      ensures Data() == ChatMessageData(None, bugId, senderId, None, messageType, None)
    {
      this.content := None;
      this.bugId := bugId;
      this.senderId := senderId;
      this.recipientId := None;
      this.messageType := messageType;
      this.readBy := None;
    }

    /** `ChatMessage.createMessage`: the given content, bug, sender and type, and an empty read-by set. */
    static method CreateMessage(content: string, bugId: Id, senderId: Id, messageType: MessageType)
      returns (m: ChatMessage)
      ensures fresh(m)
      ensures m.Data() == ChatMessageData(Some(content), Some(bugId), Some(senderId), None, messageType, Some({}))
    {
      m := new ChatMessage();
      m.content := Some(content);
      m.bugId := Some(bugId);
      m.senderId := Some(senderId);
      m.messageType := messageType;
      m.readBy := Some({});
    }

    /**
     * `markAsRead(userId)`: a null read-by set is first replaced by an empty
     * one; earlier readers are kept and the user is added.
     */
    method MarkAsRead(userId: string)
      modifies this`readBy
      ensures readBy == Some(Readers(old(readBy)) + {userId})
    {
      if readBy.None? {
        readBy := Some({});
      }
      readBy := Some(readBy.value + {userId});
    }
  }
}
