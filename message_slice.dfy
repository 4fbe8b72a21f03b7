/** The message store of the client: a message log per chat, the names of the
    users typing in each chat, and the state of the last fetch. The reducers
    are the methods of `MessageStore`; the functions `Append`, `AddTyping`
    and `RemoveTyping` state what a chat's list becomes. */
module MessageSlice {
  import opened Common
  import opened Entities

  const FetchMessagesFailed := "Failed to fetch messages"

  /** The list a chat-keyed map holds for `chatId`; a chat with no entry
      reads as the empty list. */
  function ListOf<T>(m: map<string, seq<T>>, chatId: string): seq<T> {
    if chatId in m then m[chatId] else []
  }

  /** The message logs after `addMessage(message)`: the message is pushed at
      the end of its own chat's log (created empty when missing) and no other
      log changes. */
  function Append(messages: map<string, seq<Message>>, message: Message): (r: map<string, seq<Message>>)
    ensures r.Keys == messages.Keys + {message.chat}
    ensures ListOf(r, message.chat) == ListOf(messages, message.chat) + [message]
    ensures forall chatId :: chatId != message.chat ==> ListOf(r, chatId) == ListOf(messages, chatId)
  {
    messages[message.chat := ListOf(messages, message.chat) + [message]]
  }

  /** The logs after a run of `addMessage` dispatches, in arrival order. */
  function AppendAll(messages: map<string, seq<Message>>, arrivals: seq<Message>): map<string, seq<Message>>
    decreases |arrivals|
  {
    if arrivals == [] then messages else AppendAll(Append(messages, arrivals[0]), arrivals[1..])
  }

  /** The test `message.chat === chatId`. */
  function InChat(chatId: string): Message -> bool {
    (m: Message) => m.chat == chatId
  }

  /** One `addMessage` seen from one chat: its log grows by the message when
      the message is for that chat and stays as it was otherwise. */
  lemma ListOfAppend(messages: map<string, seq<Message>>, message: Message, chatId: string)
    ensures ListOf(Append(messages, message), chatId) == ListOf(messages, chatId) + Filter([message], InChat(chatId))
  {
    assert Filter([message], InChat(chatId)) == if message.chat == chatId then [message] else [];
  }

  /** Each chat's log is append-only: after any run of arrivals it is the old
      log followed by exactly the messages of that chat, in arrival order,
      duplicates included. */
  lemma {:induction false} AppendAllIsArrivalOrder(messages: map<string, seq<Message>>, arrivals: seq<Message>, chatId: string)
    ensures ListOf(AppendAll(messages, arrivals), chatId) == ListOf(messages, chatId) + Filter(arrivals, InChat(chatId))
    decreases |arrivals|
  {
    if arrivals != [] {
      var head, tail, p := arrivals[0], arrivals[1..], InChat(chatId);
      assert AppendAll(messages, arrivals) == AppendAll(Append(messages, head), tail);
      AppendAllIsArrivalOrder(Append(messages, head), tail, chatId);
      ListOfAppend(messages, head, chatId);
      FilterSplitHead(arrivals, p);
    }
  }

  /** `addMessage` does not deduplicate by `_id`: the same message
      dispatched twice is logged twice. */
  lemma AppendTwiceKeepsBoth(messages: map<string, seq<Message>>, message: Message)
    ensures ListOf(Append(Append(messages, message), message), message.chat)
         == ListOf(messages, message.chat) + [message, message]
  {
  }

  /** The typing list after `setTyping` with `isTyping` true: the name is
      pushed at the end unless it is already there. */
  function AddTyping(names: seq<string>, name: string): (r: seq<string>)
    ensures name in r
    ensures forall x :: x in r <==> x in names || x == name
    ensures names <= r && |r| <= |names| + 1
    ensures name in names ==> r == names
    ensures NoDuplicates(names) ==> NoDuplicates(r)
  {
    if name in names then names else names + [name]
  }

  /** The typing list after `setTyping` with `isTyping` false: every
      occurrence of the name goes, the others stay in their order. */
  function RemoveTyping(names: seq<string>, name: string): (r: seq<string>)
    ensures name !in r
    ensures IsSubsequence(r, names)
    ensures forall x :: x != name ==> multiset(r)[x] == multiset(names)[x]
    ensures name !in names ==> r == names
    ensures NoDuplicates(names) ==> NoDuplicates(r)
  {
    var keep := (x: string) => x != name;
    FilterIsSubsequence(names, keep);
    FilterCounts(names, keep);
    if name !in names then FilterKeepsAll(names, keep); Filter(names, keep)
    else if NoDuplicates(names) then FilterKeepsNoDuplicates(names, keep); Filter(names, keep)
    else Filter(names, keep)
  }

  /** Repeating `setTyping` with `isTyping` true changes nothing more. */
  lemma AddTypingIdempotent(names: seq<string>, name: string)
    ensures AddTyping(AddTyping(names, name), name) == AddTyping(names, name)
  {
  }

  /** Starting and then stopping to type restores the list when the name was
      not in it before. */
  lemma RemoveUndoesAdd(names: seq<string>, name: string)
    requires name !in names
    ensures RemoveTyping(AddTyping(names, name), name) == names
  {
    var keep := (x: string) => x != name;
    FilterAppend(names, [name], keep);
    FilterKeepsAll(names, keep);
  }

  /** The typing lists after `setTyping`: the chat's list is created empty
      when missing, then the name is added or removed; `userId` plays no
      part. */
  function SetTypingIn(typing: map<string, seq<string>>, chatId: string, userName: string, isTyping: bool): (r: map<string, seq<string>>)
    ensures r.Keys == typing.Keys + {chatId}
    ensures isTyping ==> userName in r[chatId]
    ensures !isTyping ==> userName !in r[chatId]
    ensures r[chatId] == if isTyping then AddTyping(ListOf(typing, chatId), userName)
                         else RemoveTyping(ListOf(typing, chatId), userName)
    ensures forall k :: k in typing && k != chatId ==> r[k] == typing[k]
  {
    var current := ListOf(typing, chatId);
    typing[chatId := if isTyping then AddTyping(current, userName) else RemoveTyping(current, userName)]
  }

  /** Every chat's typing list is free of duplicates. */
  predicate TypingWellFormed(typing: map<string, seq<string>>) {
    forall chatId :: chatId in typing ==> NoDuplicates(typing[chatId])
  }

  /** `setTyping` keeps every typing list free of duplicates. */
  lemma SetTypingKeepsWellFormed(typing: map<string, seq<string>>, chatId: string, userName: string, isTyping: bool)
    requires TypingWellFormed(typing)
    ensures TypingWellFormed(SetTypingIn(typing, chatId, userName, isTyping))
  {
    var current := ListOf(typing, chatId);
    assert NoDuplicates(current);
  }

  /** The message store's state. */
  class MessageStore {
    var messages: map<string, seq<Message>>
    var loading: bool
    var error: Option<string>
    var typingUsers: map<string, seq<string>>

    /** `initialState`. */
    constructor ()
      ensures messages == map[] && !loading && error == None && typingUsers == map[]
      ensures TypingWellFormed(typingUsers)
    {
      messages := map[];
      loading := false;
      error := None;
      typingUsers := map[];
    }

    /** `addMessage`. */
    method AddMessage(message: Message)
      modifies this`messages
      ensures messages == Append(old(messages), message)
    {
      var chatId := message.chat;
      if chatId !in messages {
        messages := messages[chatId := []];
      }
      messages := messages[chatId := messages[chatId] + [message]];
    }

    /** `setMessages`: the chat's log is replaced wholesale. */
    method SetMessages(chatId: string, list: seq<Message>)
      modifies this`messages
      ensures messages == old(messages)[chatId := list]
    {
      messages := messages[chatId := list];
    }

    /** `setTyping`. The typing entry is keyed by `userName`; `userId` is
        accepted and ignored. */
    method SetTyping(chatId: string, userId: string, userName: string, isTyping: bool)
      modifies this`typingUsers
      ensures typingUsers == SetTypingIn(old(typingUsers), chatId, userName, isTyping)
      ensures TypingWellFormed(old(typingUsers)) ==> TypingWellFormed(typingUsers)
    {
      if chatId !in typingUsers {
        typingUsers := typingUsers[chatId := []];
      }
      var names := typingUsers[chatId];
      if isTyping {
        if userName !in names {
          names := names + [userName];
        }
      } else {
        names := Filter(names, (name: string) => name != userName);
      }
      typingUsers := typingUsers[chatId := names];
      if TypingWellFormed(old(typingUsers)) {
        SetTypingKeepsWellFormed(old(typingUsers), chatId, userName, isTyping);
      }
    }

    /** `clearTyping`: the chat's typing list becomes empty. */
    method ClearTyping(chatId: string)
      modifies this`typingUsers
      ensures typingUsers == old(typingUsers)[chatId := []]
      ensures TypingWellFormed(old(typingUsers)) ==> TypingWellFormed(typingUsers)
    {
      typingUsers := typingUsers[chatId := []];
    }

    /** `fetchMessages.pending`. The previous `error` is kept. */
    method FetchMessagesPending()
      modifies this`loading
      ensures loading
    {
      loading := true;
    }

    /** `fetchMessages.fulfilled`: the chat's log is replaced wholesale. */
    method FetchMessagesFulfilled(chatId: string, list: seq<Message>)
      modifies this`loading, this`messages
      ensures !loading
      ensures messages == old(messages)[chatId := list]
    {
      loading := false;
      messages := messages[chatId := list];
    }

    /** `fetchMessages.rejected`. */
    method FetchMessagesRejected(message: Option<string>)
      modifies this`loading, this`error
      ensures !loading
      ensures error == Some(ErrorText(message, FetchMessagesFailed))
    {
      loading := false;
      error := Some(ErrorText(message, FetchMessagesFailed));
    }
  }
}
