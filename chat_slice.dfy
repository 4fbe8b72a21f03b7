/** The chat list store of the client: an ordered list of chats, the chat
    currently open, the user directory and the state of the last fetch.
    Each reducer of the store is a method of `ChatStore` that updates the
    fields in place; what the list becomes is stated by the functions
    `Upsert` and `Replace`, and the lemmas below say what those keep. */
module ChatSlice {
  import opened Common
  import opened Entities

  const FetchChatsFailed := "Failed to fetch chats"

  /** The chat ids, in list order. */
  function Ids(chats: seq<Chat>): (r: seq<string>)
    ensures |r| == |chats|
    ensures forall i :: 0 <= i < |chats| ==> r[i] == chats[i].id
  {
    seq(|chats|, i requires 0 <= i < |chats| => chats[i].id)
  }

  /** `chats.findIndex((chat) => chat._id === id)`. */
  function IndexOfId(chats: seq<Chat>, id: string): (r: int)
    ensures -1 <= r < |chats|
    ensures r == -1 <==> id !in Ids(chats)
    ensures 0 <= r ==> chats[r].id == id && forall j :: 0 <= j < r ==> chats[j].id != id
  {
    FindIndex(chats, (c: Chat) => c.id == id)
  }

  /** The list after `addChat` (and after `createOrGetChat.fulfilled`): the
      first chat with the payload's id is replaced where it stands, and a
      payload with a new id is put in front. */
  function Upsert(chats: seq<Chat>, chat: Chat): (r: seq<Chat>)
    ensures chat in r
    ensures Ids(r) == if chat.id in Ids(chats) then Ids(chats) else [chat.id] + Ids(chats)
  {
    var i := IndexOfId(chats, chat.id);
    if i >= 0 then
      assert chats[i := chat][i] == chat;
      chats[i := chat]
    else [chat] + chats
  }

  /** The list after `updateChat`: the first chat with the payload's id is
      replaced where it stands; a payload with an unknown id is dropped. */
  function Replace(chats: seq<Chat>, chat: Chat): (r: seq<Chat>)
    ensures Ids(r) == Ids(chats)
    ensures chat.id in Ids(chats) ==> chat in r
    ensures chat.id !in Ids(chats) ==> r == chats
  {
    var i := IndexOfId(chats, chat.id);
    if i >= 0 then chats[i := chat] else chats
  }

  /** `currentChat` after `updateChat`: the same conversation stays selected,
      and it takes the payload's content only when it has the payload's id. */
  function RefreshCurrent(current: Option<Chat>, chat: Chat): (r: Option<Chat>)
    ensures r.Some? <==> current.Some?
    ensures r.Some? ==> r.value.id == current.value.id
    ensures r != current ==> r == Some(chat)
    ensures current.Some? && current.value.id == chat.id ==> r == Some(chat)
  {
    if current.Some? && current.value.id == chat.id then Some(chat) else current
  }

  /** A known id: the first chat with it is replaced at the same index, and
      the length and every other entry stay as they were. */
  lemma UpsertExisting(chats: seq<Chat>, chat: Chat, i: int)
    requires 0 <= i < |chats| && chats[i].id == chat.id
    requires forall j :: 0 <= j < i ==> chats[j].id != chat.id
    ensures |Upsert(chats, chat)| == |chats|
    ensures Upsert(chats, chat)[i] == chat
    ensures forall j :: 0 <= j < |chats| && j != i ==> Upsert(chats, chat)[j] == chats[j]
  {
    assert Ids(chats)[i] == chat.id;
  }

  /** A new id: the chat goes to index 0, every entry moves up by one and the
      list grows by exactly one. */
  lemma UpsertNew(chats: seq<Chat>, chat: Chat)
    requires chat.id !in Ids(chats)
    ensures |Upsert(chats, chat)| == |chats| + 1
    ensures Upsert(chats, chat)[0] == chat
    ensures forall j :: 0 <= j < |chats| ==> Upsert(chats, chat)[j + 1] == chats[j]
  {
  }

  /** Ids that are unique before an upsert are unique after it. */
  lemma UpsertKeepsIdsUnique(chats: seq<Chat>, chat: Chat)
    requires NoDuplicates(Ids(chats))
    ensures NoDuplicates(Ids(Upsert(chats, chat)))
  {
    var ids := Ids(Upsert(chats, chat));
    if chat.id !in Ids(chats) {
      forall i, j | 0 <= i < j < |ids| ensures ids[i] != ids[j] {
        if i == 0 {
          assert ids[j] == Ids(chats)[j - 1];
        } else {
          assert ids[i] == Ids(chats)[i - 1] && ids[j] == Ids(chats)[j - 1];
        }
      }
    }
  }

  /** Ids that are unique before `updateChat` are unique after it. */
  lemma ReplaceKeepsIdsUnique(chats: seq<Chat>, chat: Chat)
    requires NoDuplicates(Ids(chats))
    ensures NoDuplicates(Ids(Replace(chats, chat)))
  {
  }

  /** After an upsert, looking the payload's id up finds the payload. */
  lemma UpsertThenFind(chats: seq<Chat>, chat: Chat)
    ensures 0 <= IndexOfId(Upsert(chats, chat), chat.id)
    ensures Upsert(chats, chat)[IndexOfId(Upsert(chats, chat), chat.id)] == chat
  {
    var i := IndexOfId(chats, chat.id);
    var r := Upsert(chats, chat);
    var k := IndexOfId(r, chat.id);
    if i >= 0 {
      assert r[i].id == chat.id;
      assert k == i;
    } else {
      assert r[0].id == chat.id;
    }
  }

  /** Upserting the same chat twice is upserting it once. */
  lemma UpsertIdempotent(chats: seq<Chat>, chat: Chat)
    ensures Upsert(Upsert(chats, chat), chat) == Upsert(chats, chat)
  {
    UpsertThenFind(chats, chat);
  }

  /** For a chat that is already listed, `updateChat` changes the list exactly
      as `addChat` would; the two differ only for an unknown id. */
  lemma ReplaceIsUpsertWhenKnown(chats: seq<Chat>, chat: Chat)
    ensures chat.id in Ids(chats) <==> Replace(chats, chat) == Upsert(chats, chat)
  {
    if chat.id !in Ids(chats) {
      assert |Upsert(chats, chat)| != |Replace(chats, chat)|;
    }
  }

  /** The chat store's state. Every reducer names, in its `modifies` clause,
      the only fields it may change. */
  class ChatStore {
    var chats: seq<Chat>
    var currentChat: Option<Chat>
    var users: seq<Participant>
    var loading: bool
    var error: Option<string>

    /** `initialState`. */
    constructor ()
      ensures chats == [] && currentChat == None && users == []
      ensures !loading && error == None
    {
      chats := [];
      currentChat := None;
      users := [];
      loading := false;
      error := None;
    }

    /** `setCurrentChat`: only `currentChat` changes. */
    method SetCurrentChat(chat: Option<Chat>)
      modifies this`currentChat
      ensures currentChat == chat
    {
      currentChat := chat;
    }

    /** `addChat`. */
    method AddChat(chat: Chat)
      modifies this`chats
      ensures chats == Upsert(old(chats), chat)
      ensures NoDuplicates(Ids(old(chats))) ==> NoDuplicates(Ids(chats))
    {
      var existingIndex := IndexOfId(chats, chat.id);
      if existingIndex >= 0 {
        chats := chats[existingIndex := chat];
      } else {
        chats := [chat] + chats;
      }
      if NoDuplicates(Ids(old(chats))) {
        UpsertKeepsIdsUnique(old(chats), chat);
      }
    }

    /** `updateChat`: replaces, never inserts, and refreshes the open chat. */
    method UpdateChat(chat: Chat)
      modifies this`chats, this`currentChat
      ensures chats == Replace(old(chats), chat)
      ensures currentChat == RefreshCurrent(old(currentChat), chat)
      ensures NoDuplicates(Ids(old(chats))) ==> NoDuplicates(Ids(chats))
    {
      var index := IndexOfId(chats, chat.id);
      if index >= 0 {
        chats := chats[index := chat];
      }
      if currentChat.Some? && currentChat.value.id == chat.id {
        currentChat := Some(chat);
      }
    }

    /** `fetchChats.pending`. The previous `error` is kept. */
    method FetchChatsPending()
      modifies this`loading
      ensures loading
    {
      loading := true;
    }

    /** `fetchChats.fulfilled`: the list is replaced wholesale; `error` is kept. */
    method FetchChatsFulfilled(payload: seq<Chat>)
      modifies this`loading, this`chats
      ensures !loading && chats == payload
    {
      loading := false;
      chats := payload;
    }

    /** `fetchChats.rejected`. */
    method FetchChatsRejected(message: Option<string>)
      modifies this`loading, this`error
      ensures !loading
      ensures error == Some(ErrorText(message, FetchChatsFailed))
    {
      loading := false;
      error := Some(ErrorText(message, FetchChatsFailed));
    }

    /** `fetchUsers.fulfilled`. */
    method FetchUsersFulfilled(payload: seq<Participant>)
      modifies this`users
      ensures users == payload
    {
      users := payload;
    }

    /** `createOrGetChat.fulfilled`: the upsert of `addChat`, and the chat is opened. */
    method CreateOrGetChatFulfilled(chat: Chat)
      modifies this`chats, this`currentChat
      ensures chats == Upsert(old(chats), chat)
      ensures currentChat == Some(chat)
      ensures NoDuplicates(Ids(old(chats))) ==> NoDuplicates(Ids(chats))
    {
      var existingIndex := IndexOfId(chats, chat.id);
      if existingIndex >= 0 {
        chats := chats[existingIndex := chat];
      } else {
        chats := [chat] + chats;
      }
      currentChat := Some(chat);
      if NoDuplicates(Ids(old(chats))) {
        UpsertKeepsIdsUnique(old(chats), chat);
      }
    }
  }
}
