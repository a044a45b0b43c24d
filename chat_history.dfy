/** In-memory chat history of one session: a session id and a list of
    role/content records that is appended to in place, handed out by
    reference and replaced by a fresh empty list on `clear`. */
module ChatHistoryStore {

  /** One record of the history, the `{"role": …, "content": …}` dictionary. */
  datatype Entry = Entry(role: string, content: string)

  /** A Python list of entries: an object whose contents grow in place, so
      every holder of a reference sees every later append. */
  class EntryList {
    var items: seq<Entry>

    constructor()
      ensures items == []
    {
      items := [];
    }

    method Append(e: Entry)
      modifies this
      ensures items == old(items) + [e]
    {
      items := items + [e];
    }
  }

  class ChatHistory {
    var sessionId: string
    var messages: EntryList

    /** `ChatHistory(session_id)`: the id is kept and the history is empty. */
    constructor(sessionId: string)
      ensures this.sessionId == sessionId
      ensures fresh(messages) && messages.items == []
    {
      this.sessionId := sessionId;
      messages := new EntryList();
    }

    /** `add_message`: appends one record at the end, in place, so lists
        already handed out by `GetMessages` see it too. */
    method AddMessage(role: string, content: string)
      modifies messages
      ensures messages.items == old(messages.items) + [Entry(role, content)]
    {
      messages.Append(Entry(role, content));
    }

    /** `get_messages`: the history's own list, not a copy. */
    method GetMessages() returns (l: EntryList)
      ensures l == messages
    {
      l := messages;
    }

    /** `clear`: rebinds the history to a fresh empty list; the old list object
        is left as it was, with the same session id. */
    method Clear()
      modifies this
      ensures sessionId == old(sessionId)
      ensures fresh(messages) && messages.items == []
    {
      messages := new EntryList();
    }
  }

  /** A list obtained from `get_messages` before `clear` keeps the records it
      had; the history itself is empty afterwards. */
  method ClearLeavesEarlierList(sessionId: string, role: string, content: string)
    returns (earlier: seq<Entry>, current: seq<Entry>)
    ensures earlier == [Entry(role, content)]
    ensures current == []
  {
    var h := new ChatHistory(sessionId);
    h.AddMessage(role, content);
    var before := h.GetMessages();
    h.Clear();
    var after := h.GetMessages();
    earlier := before.items;
    current := after.items;
  }

  /** A list obtained from `get_messages` is live: records added afterwards
      show up in it, in the order they were added. */
  method GetMessagesIsLive(sessionId: string, first: Entry, second: Entry)
    returns (seen: seq<Entry>)
    ensures seen == [first, second]
  {
    var h := new ChatHistory(sessionId);
    var view := h.GetMessages();
    h.AddMessage(first.role, first.content);
    h.AddMessage(second.role, second.content);
    seen := view.items;
  }
}
