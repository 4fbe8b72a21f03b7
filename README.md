# Chat app core in Dafny

A model of the logic the chat application implements itself, as opposed to
what it delegates to socket.io, Mongoose and Express:

- the three client-side Redux stores: the chat list (`ChatSlice`), the
  per-chat message logs and typing lists (`MessageSlice`), and the auth
  request state (`AuthSlice`);
- the chat sidebar's search filters, its lookup of a chat's other
  participant and its last-message preview (`ChatSidebar`);
- the server's image upload route: the multer file filter, the stored file
  name and the reply of `POST /upload-image` (`UploadRoute`).

Each reducer mutates its store's state in place, so each store is a class
whose fields are the state's fields and whose methods are the reducers. In
`ChatStore` and `MessageStore` a method's `modifies` clause names the only
fields it may change; in `AuthStore` every method may change the object,
and its `ensures` states all four fields at once through `State()`. Each
method's `ensures` ties the new state to a function of the old one
(`Upsert`, `Replace`, `Append`, `SetTypingIn`, `Reduce`). The lemmas state what those
functions keep: unique chat ids, duplicate-free typing lists, append-only
message logs, a `loading` flag that is false once a request settles. The
sidebar and the upload route are pure code, modelled as functions and
lemmas.

A chat's `lastMessage` reaches the client in three shapes: null, the
populated message (the chat list), or a bare message id (the get-or-create
reply, which populates only the participants). The id shape is truthy and
has no `content`, so opening an existing chat with messages blanks its
preview line (`ChatSidebar.OpenedChatPreviewGoesBlank`).

Files: `common.dfy` (an `Option` type, subsequences, `findIndex`, `filter`,
the `message || fallback` error text), `strings.dfy` (lowering and substring
search), `entities.dfy` (the records), then one file per core module.

## Model

| member | source | states |
|---|---|---|
| Common.FindIndex | store/slices/chatSlice.ts:80-82 | `findIndex` gives -1 exactly when no element passes, else the first index that passes |
| Common.Filter | components/ChatSidebar.tsx:35 | `filter` returns no more elements than it was given, and every element it returns passes the test |
| Common.FilterIsSubsequence | components/ChatSidebar.tsx:35-39 | `filter` returns a subsequence of its input: nothing added, duplicated or reordered |
| Common.FilterCounts | components/ChatSidebar.tsx:35-39 | `filter` keeps every copy of an element that passes and none of one that fails; membership is "in the input and passes" |
| Common.FilterKeepsAll | store/slices/messageSlice.ts:79-81 | filtering with a test every element passes returns the input unchanged |
| Common.FilterCongruent | components/ChatSidebar.tsx:35-47 | two tests that agree on the input's elements filter it alike |
| Common.FilterAppend | store/slices/messageSlice.ts:79-81 | filtering a concatenation is concatenating the filtered parts |
| Common.FilterSplitHead | store/slices/messageSlice.ts:79-81 | filtering a list is filtering its head, then its tail |
| Common.FilterKeepsNoDuplicates | store/slices/messageSlice.ts:79-81 | filtering a duplicate-free list gives a duplicate-free list |
| Common.ErrorText | store/slices/chatSlice.ts:112 | `message \|\| fallback`: the message when it is present and non-empty, else the fallback; never empty when the fallback is not |
| Strings.LowerChar | components/ChatSidebar.tsx:37 | lowering maps 'A'-'Z' onto 'a'-'z' and leaves other characters alone |
| Strings.ToLower | components/ChatSidebar.tsx:37 | `toLowerCase` keeps the length and lowers each character |
| Strings.ToLowerIdempotent | components/ChatSidebar.tsx:37 | lowering twice is lowering once |
| Strings.OccursShift | components/ChatSidebar.tsx:37 | occurrences of a needle in a string and in its tail correspond, shifted by one |
| Strings.Contains | components/ChatSidebar.tsx:37 | `includes` holds exactly when the needle occurs at some index |
| Strings.ContainsEmpty | components/ChatSidebar.tsx:37 | every string includes the empty string |
| Strings.ContainsInside | server/routes/messages.js:29-31 | a string includes whatever is written inside it |
| ChatSlice.Ids | store/slices/chatSlice.ts:80-82 | the chat ids, one per chat, in list order |
| ChatSlice.IndexOfId | store/slices/chatSlice.ts:80-82 | -1 exactly when no chat has the id, else the first chat with it |
| ChatSlice.Upsert | store/slices/chatSlice.ts:79-88 | the payload is in the new list; the ids are unchanged for a known id, and the new id is put first otherwise |
| ChatSlice.Replace | store/slices/chatSlice.ts:89-95 | the ids never change; a known id's chat becomes the payload; an unknown id leaves the list as it was |
| ChatSlice.RefreshCurrent | store/slices/chatSlice.ts:96-98 | the same conversation stays selected (or none); it takes the payload only when it has the payload's id |
| ChatSlice.UpsertExisting | store/slices/chatSlice.ts:83-84 | a known id: the first chat with it is replaced at its index, length and all other entries unchanged |
| ChatSlice.UpsertNew | store/slices/chatSlice.ts:85-87 | a new id: the chat goes to index 0, every entry shifts by one, the list grows by one |
| ChatSlice.UpsertKeepsIdsUnique | store/slices/chatSlice.ts:79-88 | unique ids stay unique after an upsert |
| ChatSlice.ReplaceKeepsIdsUnique | store/slices/chatSlice.ts:89-95 | unique ids stay unique after `updateChat` |
| ChatSlice.UpsertThenFind | store/slices/chatSlice.ts:79-88 | after an upsert, looking the id up finds the payload |
| ChatSlice.UpsertIdempotent | store/slices/chatSlice.ts:79-88 | upserting the same chat twice is upserting it once |
| ChatSlice.ReplaceIsUpsertWhenKnown | store/slices/chatSlice.ts:79-95 | `updateChat` and `addChat` change the list alike exactly when the id is already listed |
| ChatSlice.ChatStore.constructor | store/slices/chatSlice.ts:33-39 | the initial state: no chats, no open chat, no users, not loading, no error |
| ChatSlice.ChatStore.SetCurrentChat | store/slices/chatSlice.ts:76-78 | only `currentChat` changes, to the payload |
| ChatSlice.ChatStore.AddChat | store/slices/chatSlice.ts:79-88 | only `chats` changes, to the upsert of the payload; unique ids stay unique |
| ChatSlice.ChatStore.UpdateChat | store/slices/chatSlice.ts:89-99 | `chats` becomes the replacement, `currentChat` is refreshed, nothing else changes; unique ids stay unique |
| ChatSlice.ChatStore.FetchChatsPending | store/slices/chatSlice.ts:103-105 | only `loading` changes, to true |
| ChatSlice.ChatStore.FetchChatsFulfilled | store/slices/chatSlice.ts:106-109 | `loading` false and `chats` replaced wholesale, nothing else changes |
| ChatSlice.ChatStore.FetchChatsRejected | store/slices/chatSlice.ts:110-113 | `loading` false and `error` set to the message or 'Failed to fetch chats' |
| ChatSlice.ChatStore.FetchUsersFulfilled | store/slices/chatSlice.ts:114-116 | only `users` changes, to the payload |
| ChatSlice.ChatStore.CreateOrGetChatFulfilled | store/slices/chatSlice.ts:117-127 | the same upsert as `addChat`, and the payload becomes the open chat |
| MessageSlice.Append | store/slices/messageSlice.ts:59-65 | the payload is pushed at the end of its own chat's log (created when missing); every other log is unchanged |
| MessageSlice.ListOfAppend | store/slices/messageSlice.ts:59-65 | seen from one chat, an `addMessage` appends the message exactly when it belongs to that chat |
| MessageSlice.AppendAllIsArrivalOrder | store/slices/messageSlice.ts:59-65 | after any run of `addMessage`, each chat's log is its old log followed by exactly that chat's messages in arrival order |
| MessageSlice.AppendTwiceKeepsBoth | store/slices/messageSlice.ts:59-65 | there is no deduplication by `_id`: a message added twice is logged twice |
| MessageSlice.AddTyping | store/slices/messageSlice.ts:74-77 | the name is pushed only when absent; membership grows by the name alone; a duplicate-free list stays so |
| MessageSlice.RemoveTyping | store/slices/messageSlice.ts:78-82 | every occurrence of the name goes, the rest stay in order with their counts; an absent name changes nothing |
| MessageSlice.AddTypingIdempotent | store/slices/messageSlice.ts:74-77 | repeating `setTyping` with `isTyping` true changes nothing more |
| MessageSlice.RemoveUndoesAdd | store/slices/messageSlice.ts:74-82 | adding and then removing a name that was absent restores the list |
| MessageSlice.SetTypingIn | store/slices/messageSlice.ts:69-83 | the chat's list is created when missing and becomes `AddTyping` of it (the name added if absent) or `RemoveTyping` of it (every copy of the name removed, the rest kept in order); other chats' lists are unchanged |
| MessageSlice.SetTypingKeepsWellFormed | store/slices/messageSlice.ts:69-83 | `setTyping` keeps every typing list free of duplicates |
| MessageSlice.MessageStore.constructor | store/slices/messageSlice.ts:28-33 | the initial state: no logs, not loading, no error, no typing lists |
| MessageSlice.MessageStore.AddMessage | store/slices/messageSlice.ts:59-65 | only `messages` changes, by the append |
| MessageSlice.MessageStore.SetMessages | store/slices/messageSlice.ts:66-68 | only that chat's log changes, replaced wholesale |
| MessageSlice.MessageStore.SetTyping | store/slices/messageSlice.ts:69-83 | only `typingUsers` changes, as `SetTypingIn` says, with `userId` playing no part; duplicate-free lists stay so |
| MessageSlice.MessageStore.ClearTyping | store/slices/messageSlice.ts:84-86 | only that chat's typing list changes, to empty |
| MessageSlice.MessageStore.FetchMessagesPending | store/slices/messageSlice.ts:90-92 | only `loading` changes, to true |
| MessageSlice.MessageStore.FetchMessagesFulfilled | store/slices/messageSlice.ts:93-96 | `loading` false and that chat's log replaced wholesale |
| MessageSlice.MessageStore.FetchMessagesRejected | store/slices/messageSlice.ts:97-100 | `loading` false and `error` set to the message or 'Failed to fetch messages' |
| AuthSlice.Fallback | store/slices/authSlice.ts:77-97 | 'Registration failed' exactly for register, 'Login failed' exactly for login, never empty |
| AuthSlice.Reduce | store/slices/authSlice.ts:47-97 | per action: settling clears `loading`; pending clears `error`; fulfilled takes user and token from the payload; rejected keeps the session and records the message, or the request's fallback text when the message is absent or empty; logout clears user and token; setUser replaces only the user |
| AuthSlice.RunSnoc | store/slices/authSlice.ts:47-97 | running one more action is reducing the state the run reached |
| AuthSlice.SettledRunIsNotLoading | store/slices/authSlice.ts:68-97 | whatever came before, a run ending in a fulfilled or rejected request is not loading |
| AuthSlice.RunPair | store/slices/authSlice.ts:47-97 | running two actions is reducing twice |
| AuthSlice.SuccessfulRequest | store/slices/authSlice.ts:64-76 | pending then fulfilled leaves the server's session, not loading, and no error |
| AuthSlice.FailedRequest | store/slices/authSlice.ts:77-80 | pending then rejected keeps the old session and records the message or the fallback, never empty |
| AuthSlice.TokenComesFromServer | store/slices/authSlice.ts:47-97 | after any run the token is absent, the starting one, or one a fulfilled request returned |
| AuthSlice.AuthStore.constructor | store/slices/authSlice.ts:20-25 | the initial state: the stored user and token, not loading, no error |
| AuthSlice.AuthStore.Logout | store/slices/authSlice.ts:47-54 | the state becomes `Reduce` of the old state by `logout` |
| AuthSlice.AuthStore.SetUser | store/slices/authSlice.ts:55-60 | the state becomes `Reduce` of the old state by `setUser` |
| AuthSlice.AuthStore.RegisterPending | store/slices/authSlice.ts:64-67 | the state becomes `Reduce` of the old state by `register.pending` |
| AuthSlice.AuthStore.RegisterFulfilled | store/slices/authSlice.ts:68-76 | the state becomes `Reduce` of the old state by `register.fulfilled` |
| AuthSlice.AuthStore.RegisterRejected | store/slices/authSlice.ts:77-80 | the state becomes `Reduce` of the old state by `register.rejected` |
| AuthSlice.AuthStore.LoginPending | store/slices/authSlice.ts:81-84 | the state becomes `Reduce` of the old state by `login.pending` |
| AuthSlice.AuthStore.LoginFulfilled | store/slices/authSlice.ts:85-93 | the state becomes `Reduce` of the old state by `login.fulfilled` |
| AuthSlice.AuthStore.LoginRejected | store/slices/authSlice.ts:94-97 | the state becomes `Reduce` of the old state by `login.rejected` |
| ChatSidebar.UserMatches | components/ChatSidebar.tsx:36-38 | a user matches exactly when the lowered term occurs in the lowered name or in the lowered email |
| ChatSidebar.FilteredUsers | components/ChatSidebar.tsx:35-39 | exactly the users whose lowered name or email contains the lowered term, as a subsequence of the directory, every copy kept |
| ChatSidebar.OtherIndex | components/ChatSidebar.tsx:42 | -1 exactly when every participant is the signed-in user, else the first one who is not |
| ChatSidebar.OtherParticipant | components/ChatSidebar.tsx:42 | absent exactly when every participant is the signed-in user, else the first one who is not |
| ChatSidebar.FirstOtherIsUnique | components/ChatSidebar.tsx:42 | there is only one first participant other than the signed-in user |
| ChatSidebar.ChatMatches | components/ChatSidebar.tsx:42-46 | a chat matches exactly when its first participant other than the signed-in user exists and matches the term |
| ChatSidebar.FilteredChats | components/ChatSidebar.tsx:41-47 | exactly the chats whose other participant matches the term, as a subsequence of the list, every copy of a matching chat kept |
| ChatSidebar.Preview | components/ChatSidebar.tsx:134-138 | an image shows '📷 Image', another populated message its content, no message 'No messages yet', a bare (non-empty) id nothing |
| ChatSidebar.OpenedChatPreviewGoesBlank | components/ChatSidebar.tsx:134-138 | after get-or-create upserts a reply whose last message is a bare id, that chat's preview is blank |
| ChatSidebar.EmptyTermKeepsAllUsers | components/ChatSidebar.tsx:35-39 | an empty search term keeps the whole directory |
| ChatSidebar.EmptyTermKeepsChatsWithOther | components/ChatSidebar.tsx:41-47 | with an empty term a chat is kept exactly when it has a participant other than the signed-in user |
| ChatSidebar.SearchIgnoresTermCase | components/ChatSidebar.tsx:35-47 | lowering the term first changes neither filter |
| ChatSidebar.FirstOtherDecides | components/ChatSidebar.tsx:42-46 | only the first other participant decides whether a chat is kept |
| ChatSidebar.ChatWithoutOtherExcluded | components/ChatSidebar.tsx:42-46 | a chat whose participants are all the signed-in user is never listed |
| ChatSidebar.SignedOutPicksFirst | components/ChatSidebar.tsx:42 | with nobody signed in, the first participant is the other one |
| UploadRoute.PatternTest | server/routes/messages.js:29-31 | the unanchored pattern matches exactly when one of the five tokens occurs somewhere in the string |
| UploadRoute.StripTrailingSlashes | server/routes/messages.js:21 | a prefix of the path that does not end in '/', and everything removed is '/' |
| UploadRoute.LastIndexOf | server/routes/messages.js:21 | the index of the last occurrence, or -1 when there is none |
| UploadRoute.Basename | server/routes/messages.js:21 | the last segment holds no '/' |
| UploadRoute.BasenameIsLastSegment | server/routes/messages.js:21 | the base name ends the path without its trailing '/' and is all of it or preceded by '/' |
| UploadRoute.ExtName | server/routes/messages.js:21 | the extension is empty or one '.' followed by no other '.', holds no '/', and ends the last segment |
| UploadRoute.NoDotNoExtension | server/routes/messages.js:30 | a last segment without '.' has no extension |
| UploadRoute.DotDotNoExtension | server/routes/messages.js:30 | the segment ".." has no extension |
| UploadRoute.DotfileNoExtension | server/routes/messages.js:30 | a last segment whose only '.' is its first character has no extension |
| UploadRoute.ExtensionFromLastDot | server/routes/messages.js:30 | otherwise the extension is the segment's end from its last '.' |
| UploadRoute.FileFilter | server/routes/messages.js:28-38 | accepted exactly when both the lowered extension and the raw mimetype contain a token; otherwise 'Only image files are allowed' |
| UploadRoute.NoExtensionRejected | server/routes/messages.js:30-36 | a name without an extension is rejected whatever its mimetype |
| UploadRoute.TokenAnywhereAccepted | server/routes/messages.js:29-34 | a token anywhere in the lowered extension and anywhere in the mimetype is enough |
| UploadRoute.UpperCaseMimetypeRejected | server/routes/messages.js:31-36 | the mimetype is not lowered: one without lower-case letters is rejected |
| UploadRoute.NoLowerCaseNoMatch | server/routes/messages.js:29 | the pattern never matches a string without lower-case letters |
| UploadRoute.StoredFilename | server/routes/messages.js:19-22 | the stored name is 'image-', then the unique suffix, then the original name's extension (prefix, length, middle and end) |
| UploadRoute.IsUniqueSuffix | server/routes/messages.js:20 | a suffix of digits and '-' holds neither '.' nor '/' |
| UploadRoute.DecimalDigits | server/routes/messages.js:20 | a number turned into a string is a non-empty run of decimal digits without a leading zero; 0 is "0" |
| UploadRoute.DecimalDigitsRoundTrip | server/routes/messages.js:20 | reading those digits back gives the number |
| UploadRoute.UniqueSuffix | server/routes/messages.js:20 | the suffix is digits and '-', and splits at a '-' into the decimal digits of the clock reading and of the random draw, which read back as those numbers |
| UploadRoute.BasenameAfterSlash | server/routes/messages.js:71 | a plain name after a '/' is the last segment of the whole path |
| UploadRoute.StoredNameChars | server/routes/messages.js:20-21 | a stored name holds no '/', and its only '.' is the one that starts the extension |
| UploadRoute.ExtNameOfSameBasename | server/routes/messages.js:21 | the extension depends on the last segment only |
| UploadRoute.BasenameOfPlainName | server/routes/messages.js:21 | a name without '/' is its own last segment |
| UploadRoute.ExtNameOfPlainName | server/routes/messages.js:21 | a plain name's extension starts at its last '.' |
| UploadRoute.ExtNameOfDotlessName | server/routes/messages.js:21 | a plain name without '.' has no extension |
| UploadRoute.StoredFilenameKeepsExtension | server/routes/messages.js:19-22 | the stored file has the extension of the client's file name |
| UploadRoute.ImageUrl | server/routes/messages.js:71 | the URL is the protocol, '://', the host and '/uploads/' followed by exactly the file name (prefix, length and suffix), so its last segment is the file name |
| UploadRoute.UploadImage | server/routes/messages.js:25-72 | no file gives 400 'No image file provided'; a rejected file fails with the filter's error; 200 exactly for an accepted file within 5 MB, with the URL of the stored file |
| UploadRoute.ImageUrlNamesStoredFile | server/routes/messages.js:71 | the URL's last segment is the stored name, and its extension is the client's file's extension |

## Left out

- Socket handlers of the server (joining and leaving rooms, broadcasting, saving a sent message with two separate writes): these are socket.io and Mongoose calls, not logic of this repository.
- The get-or-create chat route: a thin wrapper over database queries; its behaviour under concurrent calls depends on the database.
- The socket client glue: its handlers only dispatch the reducers modelled here. It applies an incoming typing event to the open chat rather than to the chat the event came from; that is not modelled.
- The asynchronous thunks, their HTTP calls and every `localStorage` read and write: these are I/O. The constructor of `AuthSlice.AuthStore` takes what storage holds as parameters.
- The user interface components and pages, typing timers, `FileReader` and date formatting: presentation only.
- The upload directory creation: a side effect. The clock reading and the rounded random draw in the stored name are parameters of `UploadRoute.UniqueSuffix`.
- The mailer and the database schemas: library wrappers and declarations.
- The sender of a listed chat's last message: the chat list populates a chat's last message but not that message's sender, which then reaches the client as an id string; `Populated` holds a full `Participant` there, since no modelled operation reads that sender.
- Strings.ToLower: lowers ASCII letters only, not the full Unicode mapping of `toLowerCase`.
- UploadRoute.UploadImage: requests are taken as already authenticated; the `auth` middleware that runs before multer, and the replies of a request it stops, are not modelled. Multer's other errors (an unexpected field name, a broken multipart body) and the route's 500 path are left out too; they come from library code or from I/O failures.
- UploadRoute.PatternTest: modelled as a substring test over the five tokens, which is what an unanchored alternation of plain words matches; general regular expressions are not modelled.
- The chat sidebar shows `filteredChats` only while the search term is empty and `filteredUsers` otherwise; which list is rendered is not modelled, only the two filters and `ChatSidebar.EmptyTermKeepsChatsWithOther` for the case that is shown.
- `fetchChats.pending` and `fetchMessages.pending` do not clear an earlier `error`; the model keeps that behaviour rather than the clearing the auth requests do.
- Path handling follows Node's POSIX rules only; Windows paths are not modelled.
