/** The pure parts of the chat sidebar: the search filters over the user
    directory and over the chat list, the lookup of a chat's other
    participant, and the preview line shown under each chat. Lowering is
    ASCII-only (see `Strings.LowerChar`). */
module ChatSidebar {
  import opened Common
  import opened Strings
  import opened Entities
  import ChatSlice

  const ImageLabel := "\U{1F4F7} Image"
  const NoMessagesLabel := "No messages yet"

  /** `field.toLowerCase().includes(searchTerm.toLowerCase())`. */
  predicate FieldMatches(field: string, term: string) {
    Contains(ToLower(field), ToLower(term))
  }

  /** The test `filteredUsers` applies to one user: the lowered term occurs
      in the lowered name or in the lowered email. */
  function UserMatches(u: Participant, term: string): (r: bool)
    ensures r <==> ((exists i :: OccursAt(ToLower(u.name), ToLower(term), i))
                    || (exists i :: OccursAt(ToLower(u.email), ToLower(term), i)))
  {
    FieldMatches(u.name, term) || FieldMatches(u.email, term)
  }

  function UserTest(term: string): Participant -> bool {
    (u: Participant) => UserMatches(u, term)
  }

  /** `filteredUsers`: the users whose name or email contains the search
      term, ignoring case, in directory order. */
  function FilteredUsers(users: seq<Participant>, term: string): (r: seq<Participant>)
    ensures IsSubsequence(r, users)
    ensures forall u :: u in r <==> u in users && UserMatches(u, term)
    ensures forall u :: multiset(r)[u] == if UserMatches(u, term) then multiset(users)[u] else 0
  {
    FilterIsSubsequence(users, UserTest(term));
    FilterCounts(users, UserTest(term));
    Filter(users, UserTest(term))
  }

  /** `k` is the index of the first participant whose id differs from the
      signed-in user's (`me`, absent when nobody is signed in). */
  ghost predicate IsFirstOther(participants: seq<Participant>, me: Option<string>, k: int) {
    && 0 <= k < |participants|
    && Some(participants[k].id) != me
    && forall j :: 0 <= j < k ==> Some(participants[j].id) == me
  }

  /** `chat.participants.findIndex((p) => p._id !== user?.id)`. */
  function OtherIndex(participants: seq<Participant>, me: Option<string>): (r: int)
    ensures -1 <= r < |participants|
    ensures r == -1 <==> forall i :: 0 <= i < |participants| ==> Some(participants[i].id) == me
    ensures r != -1 ==> IsFirstOther(participants, me, r)
  {
    FindIndex(participants, (p: Participant) => Some(p.id) != me)
  }

  /** `chat.participants.find((p) => p._id !== user?.id)`. */
  function OtherParticipant(participants: seq<Participant>, me: Option<string>): (r: Option<Participant>)
    ensures r.None? <==> forall i :: 0 <= i < |participants| ==> Some(participants[i].id) == me
    ensures r.Some? ==> exists k :: IsFirstOther(participants, me, k) && participants[k] == r.value
  {
    var k := OtherIndex(participants, me);
    if k < 0 then None else Some(participants[k])
  }

  /** There is only one first other participant. */
  lemma FirstOtherIsUnique(participants: seq<Participant>, me: Option<string>, k: int, k': int)
    requires IsFirstOther(participants, me, k) && IsFirstOther(participants, me, k')
    ensures k == k'
  {
  }

  /** The test `filteredChats` applies to one chat: its first participant
      other than the signed-in user exists and matches the search term like
      a user does. */
  function ChatMatches(chat: Chat, term: string, me: Option<string>): (r: bool)
    ensures r <==> exists k :: IsFirstOther(chat.participants, me, k) && UserMatches(chat.participants[k], term)
  {
    var other := OtherParticipant(chat.participants, me);
    other.Some? && UserMatches(other.value, term)
  }

  function ChatTest(term: string, me: Option<string>): Chat -> bool {
    (c: Chat) => ChatMatches(c, term, me)
  }

  /** `filteredChats`: the chats whose other participant matches the
      search term, in list order. */
  function FilteredChats(chats: seq<Chat>, term: string, me: Option<string>): (r: seq<Chat>)
    ensures IsSubsequence(r, chats)
    ensures forall c :: c in r <==> c in chats && ChatMatches(c, term, me)
    ensures forall c :: multiset(r)[c] == if ChatMatches(c, term, me) then multiset(chats)[c] else 0
  {
    FilterIsSubsequence(chats, ChatTest(term, me));
    FilterCounts(chats, ChatTest(term, me));
    Filter(chats, ChatTest(term, me))
  }

  /** The preview line under a chat, from its last message. An id alone is
      a non-empty string, so it passes the truthiness test, and its missing
      `content` renders as nothing. */
  function Preview(lastMessage: LastMessage): (r: string)
    ensures lastMessage.NoLastMessage? ==> r == NoMessagesLabel
    ensures lastMessage.Populated? && lastMessage.message.kind == Image ==> r == ImageLabel
    ensures lastMessage.Populated? && lastMessage.message.kind != Image ==> r == lastMessage.message.content
    ensures lastMessage.IdOnly? ==> r == (if lastMessage.messageId == "" then NoMessagesLabel else "")
  {
    match lastMessage
    case NoLastMessage => NoMessagesLabel
    case Populated(m) => if m.kind == Image then ImageLabel else m.content
    case IdOnly(messageId) => if messageId == "" then NoMessagesLabel else ""
  }

  /** Opening a chat with messages through get-or-create replaces its listed
      entry by the reply, whose last message is only an id: the preview of
      that chat goes blank, whatever it showed before. */
  lemma OpenedChatPreviewGoesBlank(chats: seq<Chat>, chat: Chat)
    requires chat.lastMessage.IdOnly? && chat.lastMessage.messageId != ""
    ensures var listed := ChatSlice.Upsert(chats, chat);
      Preview(listed[ChatSlice.IndexOfId(listed, chat.id)].lastMessage) == ""
  {
    ChatSlice.UpsertThenFind(chats, chat);
  }

  /** An empty search term keeps every user: the empty string occurs in
      every name. */
  lemma EmptyTermKeepsAllUsers(users: seq<Participant>)
    ensures FilteredUsers(users, "") == users
  {
    forall u | u in users ensures UserTest("")(u) {
      assert ToLower("") == "";
      ContainsEmpty(ToLower(u.name));
    }
    FilterKeepsAll(users, UserTest(""));
  }

  /** With an empty search term a chat is kept exactly when it has a
      participant other than the signed-in user. */
  lemma EmptyTermKeepsChatsWithOther(chats: seq<Chat>, me: Option<string>)
    ensures forall c :: c in FilteredChats(chats, "", me)
                    <==> c in chats && OtherParticipant(c.participants, me).Some?
  {
    assert ToLower("") == "";
    forall c | c in chats && OtherParticipant(c.participants, me).Some?
      ensures ChatMatches(c, "", me)
    {
      ContainsEmpty(ToLower(OtherParticipant(c.participants, me).value.name));
    }
  }

  /** The search ignores the case of the term: lowering it first changes
      neither filter. */
  lemma SearchIgnoresTermCase(users: seq<Participant>, chats: seq<Chat>, term: string, me: Option<string>)
    ensures FilteredUsers(users, ToLower(term)) == FilteredUsers(users, term)
    ensures FilteredChats(chats, ToLower(term), me) == FilteredChats(chats, term, me)
  {
    ToLowerIdempotent(term);
    FilterCongruent(users, UserTest(ToLower(term)), UserTest(term));
    FilterCongruent(chats, ChatTest(ToLower(term), me), ChatTest(term, me));
  }

  /** Only the first participant that is not the signed-in user decides
      whether a chat is kept; later participants are never looked at. */
  lemma FirstOtherDecides(chat: Chat, term: string, me: Option<string>, k: int)
    requires IsFirstOther(chat.participants, me, k)
    ensures ChatMatches(chat, term, me) <==> UserMatches(chat.participants[k], term)
  {
    FirstOtherIsUnique(chat.participants, me, k, OtherIndex(chat.participants, me));
  }

  /** A chat whose participants are all the signed-in user is never listed,
      whatever the search term. */
  lemma ChatWithoutOtherExcluded(chats: seq<Chat>, chat: Chat, term: string, me: Option<string>)
    requires forall p :: p in chat.participants ==> Some(p.id) == me
    ensures chat !in FilteredChats(chats, term, me)
  {
    assert forall i :: 0 <= i < |chat.participants| ==> chat.participants[i] in chat.participants;
  }

  /** With nobody signed in (`user` is null), `p._id !== undefined` holds of
      every participant, so the first participant is the "other" one. */
  lemma SignedOutPicksFirst(participants: seq<Participant>)
    requires participants != []
    ensures OtherParticipant(participants, None) == Some(participants[0])
  {
    assert IsFirstOther(participants, None, 0);
    FirstOtherIsUnique(participants, None, 0, OtherIndex(participants, None));
  }
}
