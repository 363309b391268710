# HobbyHub core in Dafny

HobbyHub is a social site for hobby groups. It has posts with likes, dislikes and comments. It has group chat rooms with polls, an anonymous global chat, contests with registration, and admin moderation. This project models the server's Socket.IO chat broker and the REST handlers for posts, groups, users and registrations. It also models the upload filters, the Cloudinary configuration parser, and the client-side state logic of the chat views, the registration form, the dashboard, the explore feed and the two timed walkthroughs. It then proves properties about these models.

Each source file is one module:

| module | models |
|---|---|
| `ChatServer` (`chat_server.dfy`) | `server/index.js`, one `Server` class, with data in fields and every emit recorded in `outbox` |
| `PostRoutes`, `GroupRoutes`, `UserRoutes`, `RegistrationRoutes` | `server/routes/*.js`, one store class each, with the Mongo collections as `map` fields |
| `Uploads` | the multer `checkFileType` filters and size limit of `posts.js` and `users.js` |
| `CloudinaryConfig` | `server/config/cloudinary.js`: `split('@')[1]`, and the regular expression `/cloudinary:\/\/(\w+):(\w+)@(\w+)/` written out as a leftmost, greedy matcher |
| `ChatRoomView` | `client/src/components/ChatRoom.jsx` |
| `GlobalChatView` | `client/src/pages/Chat.jsx` |
| `ContestRegistrationForm` | `client/src/pages/ContestRegistration.jsx`, a class over the component's state |
| `DashboardView` | `client/src/pages/Dashboard.jsx` |
| `ExploreFeed` | `client/src/pages/Explore.jsx` |
| `IntroAnimation`, `OnboardingTutorial` | the two components of those names, as classes whose interval ticks are method calls |

Shared modules:
- `Models` holds the documents of `server/models/*.js`.
- `Seqs` holds the array operations the code uses: `indexOf`, `splice`, `filter`, `map`, `$pull` and `$addToSet`.
- `Strings` holds `trim`, `toLowerCase`, `split` and `join`.
- `ClientLists` holds the delete-then-filter rule several pages share.
- `Stepper` holds the `prev < last ? prev + 1 : prev` counter of both walkthroughs.
- `Wrappers` holds `Option` and `Result`.

Everything outside the program is a parameter:
- `filter.clean` of `bad-words` is an arbitrary function `string -> string`.
- `Date.now()` is a stamp passed in.
- New document ids are passed in by the caller, who guarantees they are fresh.
- `req.user.id` is the requester argument.
- `window.confirm` is a boolean.
- The HTTP status of an axios call is an integer.
- Interval and timeout callbacks are explicit method calls.

## Model

| member | source | states |
|---|---|---|
| `ChatServer.NewMessage` | server/index.js:73-84 | A missing content is refused: `filter.clean` throws on it. A message is built exactly when content, group, sender and a valid type are present. It then holds the cleaned content, the poll question and the options as sent. |
| `ChatServer.JoinTarget` | server/index.js:52-57 | The room is always the payload's `groupId`. A bare id has no username; an object carries its own. |
| `ChatServer.ToggleVote` | server/index.js:102-107 | Voting again is `RemoveFirst`: this user's first vote is spliced out and the other votes keep their order. Otherwise the vote is appended at the end. No other voter's count changes. |
| `ChatServer.ToggleTwiceRestores` | server/index.js:102-107 | For a user who has not voted, two toggles give back the exact vote list. |
| `ChatServer.ToggleTwiceReorders` | server/index.js:102-107 | On any duplicate-free vote list holding the user, two toggles give the list without the user, followed by the user: same voters, with that user moved to the end. |
| `ChatServer.ToggleNoDup` | server/index.js:102-107 | A toggle keeps a vote list free of duplicates. Afterwards the user is in the list exactly when they were not before. |
| `ChatServer.CastOrRetract` | server/index.js:96-111 | A vote changes only the chosen option's vote list. Its text, the other options and the rest of the message are unchanged. |
| `ChatServer.VoteTwiceRestoresMessage` | server/index.js:96-111 | Two votes on the same option by a user who had not voted there give back the message. |
| `ChatServer.VotesInSeveralOptions` | server/index.js:99-107 | Nothing stops one user from holding votes in two options of a poll. |
| `ChatServer.VoteKeepsVotesDistinct` | server/index.js:96-111 | Every option's vote list stays free of duplicates. |
| `ChatServer.GlobalLineModeration` | server/index.js:123-143 | The broadcast text is the cleaned message, or `'****'` when the resolved name belongs to an account blocked from chat. Name resolution falls back from the payload to the presence entry to `'Anonymous'`. |
| `ChatServer.GlobalLineFor` | server/index.js:125-143 | A `receive` line is emitted exactly when the message is present. It carries the resolved name and picture. |
| `ChatServer.RedactionIgnoresContent` | server/index.js:131-136 | For a blocked sender, what was written does not change what is broadcast. |
| `ChatServer.ExplicitNameWins` | server/index.js:127 | A non-empty name in the payload overrides the presence entry. |
| `ChatServer.Server.constructor` | server/index.js:44 | The broker starts with no connections, rooms, messages, presence entries or emits. |
| `ChatServer.Server.Connect` | server/index.js:47 | A new socket is connected. Nothing else changes. |
| `ChatServer.Server.JoinGroup` | server/index.js:51-71 | The socket joins the room. The whole room, the joiner included, receives a `joined the chat` system notice exactly when the username is truthy, on every join. |
| `ChatServer.Server.SendMessage` | server/index.js:73-94 | A message is stored exactly when `NewMessage` accepts it. It is then emitted with its populated sender to the room's members. A refused message changes nothing. |
| `ChatServer.Server.VotePoll` | server/index.js:96-116 | There are four outcomes, each stated both ways: no such message, not a poll, option out of range, or toggled. Only a toggle stores and emits anything, and it emits to the poll's room. |
| `ChatServer.Server.SaveAndBroadcast` | server/index.js:109-111 | The updated poll replaces the stored message and one `poll_updated` emit to its group is appended. The outbox stays well addressed and nothing else changes. |
| `ChatServer.Server.Send` | server/index.js:123-144 | A line is delivered exactly when moderation yields one. It goes to every connection, the sender included. |
| `ChatServer.Server.NewUserJoined` | server/index.js:148-156 | The presence entry is replaced. Every other connection is told who joined. |
| `ChatServer.Server.Disconnect` | server/index.js:158-165 | The socket leaves every room and the presence map. A `left` notice carrying its presence entry is broadcast only if it had one. |
| `Uploads.Extname` | server/routes/posts.js:30 | The extension is the suffix starting at the last `'.'`. A name without a dot has none. |
| `Uploads.Screen` | server/routes/posts.js:17-39 | A file part is accepted exactly when both its lower-cased extension and its mimetype match the pattern, and it is at most 50000000 bytes. |
| `Uploads.CheckFileType` | server/routes/posts.js:28-38 | With non-empty alternatives, a passing file has a non-empty extension and a non-empty mimetype. |
| `Uploads.ImageTypesArePostTypes` | server/routes/users.js:27-37 | Every file the profile route accepts, the post route accepts too. |
| `Uploads.NoLowerNoMatch` | server/routes/posts.js:32 | A mimetype with no lower-case letters matches none of the lower-case alternatives. |
| `Uploads.ExtensionCaseIgnored` | server/routes/posts.js:30 | `Cover.JPG` passes, because the extension is lower-cased. |
| `Uploads.MimetypeCaseMatters` | server/routes/posts.js:32 | `IMAGE/JPEG` fails, because the mimetype is not lower-cased. |
| `Uploads.SubstringExtensionAccepted` | server/routes/users.js:28-30 | The pattern is unanchored, so `.pngs` passes. |
| `Uploads.DotFileRefused` | server/routes/posts.js:30 | `.png` has no extension, so it is refused. |
| `PostRoutes.Like` | server/routes/posts.js:86-97 | An existing like is withdrawn by `RemoveFirst`, so the other likes keep their order, and the dislikes are untouched. Otherwise the user goes to the front of the likes, and a dislike of theirs is withdrawn the same way. |
| `PostRoutes.Dislike` | server/routes/posts.js:117-128 | The mirror image of `Like`, with the two lists swapped. Each withdrawal is `RemoveFirst` of the user. |
| `PostRoutes.DislikeMirrorsLike` | server/routes/posts.js:86-128 | Dislike is Like with the two lists swapped. |
| `PostRoutes.PrependNoDup` | server/routes/posts.js:91 | Putting an absent user at the front keeps the list free of duplicates. |
| `PostRoutes.LikeKeepsExclusive` | server/routes/posts.js:86-97 | Both lists stay free of duplicates and disjoint. Afterwards the user has liked exactly when they had not before. |
| `PostRoutes.DislikeKeepsExclusive` | server/routes/posts.js:117-128 | Both lists stay free of duplicates and disjoint. |
| `PostRoutes.LikeTwiceFromNeutral` | server/routes/posts.js:86-97 | Liking twice from a neutral state restores both lists. |
| `PostRoutes.LikeThenDislike` | server/routes/posts.js:86-128 | A like followed by a dislike leaves only the dislike. |
| `PostRoutes.PostStore.constructor` | server/routes/posts.js:44-63 | The store starts empty. |
| `PostRoutes.PostStore.CreatePost` | server/routes/posts.js:9-63 | A file that fails the type filter or the size limit gives 400, as does a missing image. Otherwise the post is stored, without reactions or comments, under `/uploads/image-<stamp><ext>`, with the music path only when music was uploaded. |
| `PostRoutes.PostStore.LikePost` | server/routes/posts.js:81-107 | A missing post gives 500 and changes nothing. Otherwise the reactions become `Like` of the old ones. |
| `PostRoutes.PostStore.DislikePost` | server/routes/posts.js:112-136 | A missing post gives 500 and changes nothing. Otherwise the reactions become `Dislike` of the old ones. |
| `PostRoutes.PostStore.CommentOn` | server/routes/posts.js:141-162 | A missing post gives 500. Otherwise the comment goes in front and the new comment list is returned. |
| `PostRoutes.PostStore.DeletePost` | server/routes/posts.js:167-190 | The status is 404 for a missing post, 401 for someone else's post, and 200 when the post is removed. Nothing else changes. |
| `GroupRoutes.JoinThenLeaveRestores` | server/routes/groups.js:67-93 | Joining and then leaving gives back the member list. |
| `GroupRoutes.LeaveKeepsOthersInOrder` | server/routes/groups.js:93 | Leaving removes only that user and keeps everybody else in order. |
| `GroupRoutes.AddThenPullRestores` | server/routes/groups.js:72-98 | `$pull` after `$addToSet` of an absent group gives back the user's group list. |
| `GroupRoutes.GroupStore.WithGroup` | server/routes/groups.js:47 | `$addToSet` on one user's `joinedGroups`. An unknown id updates nothing. |
| `GroupRoutes.GroupStore.WithoutGroup` | server/routes/groups.js:98 | `$pull` on one user's `joinedGroups`. An unknown id updates nothing. |
| `GroupRoutes.GroupStore.constructor` | server/routes/groups.js:31-54 | No groups. The given users, whose group lists are free of duplicates. |
| `GroupRoutes.GroupStore.Create` | server/routes/groups.js:31-54 | A group missing a required field gives 500. Otherwise it is stored with its creator as sole member and added to the creator's groups. Member and group lists stay consistent and free of duplicates. |
| `GroupRoutes.GroupStore.Join` | server/routes/groups.js:57-79 | The status is 404 for a missing group and 400 for a member. Otherwise the user is appended to the members and the group is added to the user once. |
| `GroupRoutes.GroupStore.Leave` | server/routes/groups.js:82-105 | The status is 404 for a missing group and 400 for a non-member. Otherwise the user is removed from both sides. |
| `GroupRoutes.GroupStore.Delete` | server/routes/groups.js:108-121 | The status is 500 for an unknown requester and 403 for a non-admin. Otherwise the group is removed, existing or not. |
| `GroupRoutes.GroupStore.Restrict` | server/routes/groups.js:124-141 | The status is 500, 403 or 404 as the handler checks them. Otherwise `isRestricted` flips and nothing else changes. |
| `UserRoutes.ApplyProfile` | server/routes/users.js:52-72 | `$set` changes the username only for a non-empty one and the picture only for an uploaded file. Role, block flag and groups are kept. |
| `UserRoutes.UserDirectory.constructor` | server/routes/users.js:42-80 | The directory starts from the given accounts with unique usernames. |
| `UserRoutes.UserDirectory.UpdateProfile` | server/routes/users.js:42-80 | A rejected upload gives 400, as does a non-empty username taken by another account. Otherwise the account is updated by `ApplyProfile` and returned, or null for an unknown requester. Usernames stay unique. |
| `UserRoutes.UserDirectory.ListUsers` | server/routes/users.js:85-98 | The status is 500 for an unknown requester and 401 for a non-admin. Otherwise every account is listed. |
| `UserRoutes.UserDirectory.ToggleBlock` | server/routes/users.js:103-121 | The status is 500, 401 or 404 as the handler checks them. Otherwise the target's `isChatBlocked` flips and the new value is returned. |
| `UserRoutes.UserDirectory.DeleteUser` | server/routes/users.js:126-145 | The status is 500 for an unknown requester, 401 for a non-admin, and 400 to delete oneself. Otherwise the target is removed, and the requester always survives. |
| `RegistrationRoutes.AttendanceAppend` | server/routes/registrations.js:37 | A new registration adds its member count to its own contest and nothing to another. |
| `RegistrationRoutes.OnePerPairAppend` | server/routes/registrations.js:22-25 | Refusing an already registered (contest, user) pair keeps registrations to one per pair. |
| `RegistrationRoutes.CountedAfterRegister` | server/routes/registrations.js:34-46 | Saving a registration and adding its members to the contest keeps every count equal to its start plus its attendance. |
| `RegistrationRoutes.CountedAfterEmpty` | server/routes/registrations.js:34-46 | A registration without members needs no count change. |
| `RegistrationRoutes.RegistrationDesk.constructor` | server/routes/registrations.js:11-53 | The desk starts with no registrations for the given contests. |
| `RegistrationRoutes.RegistrationDesk.Register` | server/routes/registrations.js:11-53 | The status is 404 for a missing contest and 400 for a second registration. An unknown type or an incomplete member gives 500 and nothing is stored. An absent member list is stored as empty and then gives 500. Otherwise the contest's count grows by the number of members, and the counts and one-per-pair stay right. |
| `RegistrationRoutes.RegistrationDesk.Save` | server/routes/registrations.js:34-46 | The registration is appended. With a member list the contest's count grows by its length; without one the contests are unchanged. Counts and one-per-pair stay right. |
| `RegistrationRoutes.RegistrationDesk.Mine` | server/routes/registrations.js:58-66 | The listing is exactly the requester's registrations. |
| `RegistrationRoutes.RegistrationDesk.ForContest` | server/routes/registrations.js:71-87 | The status is 500 for an unknown requester and 401 for a non-admin. Otherwise the listing is exactly the contest's registrations. |
| `CloudinaryConfig.WordRun` | server/config/cloudinary.js:20 | A greedy `\w*` takes the longest prefix of word characters. |
| `CloudinaryConfig.WordRunOf` | server/config/cloudinary.js:20 | A word followed by a non-word character is consumed exactly. |
| `CloudinaryConfig.WordThen` | server/config/cloudinary.js:20 | `(\w+)` followed by the separator splits the text there. |
| `CloudinaryConfig.WordThenOf` | server/config/cloudinary.js:20 | A word followed by the separator is captured exactly. |
| `CloudinaryConfig.MatchHere` | server/config/cloudinary.js:20 | A successful attempt captures three non-empty words. |
| `CloudinaryConfig.MatchIsLeftmost` | server/config/cloudinary.js:20 | The match is the attempt at `MatchAt`, and every attempt before that position fails. |
| `CloudinaryConfig.MatchAt` | server/config/cloudinary.js:20 | The position of the returned attempt lies between the starting position and the end. |
| `CloudinaryConfig.NoMatchAnywhere` | server/config/cloudinary.js:20-21 | No match means the pattern matches at no position. |
| `CloudinaryConfig.MatchHereOf` | server/config/cloudinary.js:20-24 | An attempt at the start of `cloudinary://k:s@n` captures k, s and n. |
| `CloudinaryConfig.MatchAtStart` | server/config/cloudinary.js:20 | A successful attempt at the start is the match. |
| `CloudinaryConfig.RoundTrip` | server/config/cloudinary.js:20-24 | `cloudinary://k:s@n`, for non-empty words, parses back to key k, secret s and cloud n. |
| `CloudinaryConfig.CloudNameStopsAtNonWord` | server/config/cloudinary.js:20-24 | A cloud name with a `-` is cut at the `-`. |
| `CloudinaryConfig.NoSchemeNoMatch` | server/config/cloudinary.js:20-21 | Text without the scheme never matches. |
| `CloudinaryConfig.SecretStopsAttempt` | server/config/cloudinary.js:20 | The attempt at the start fails when the secret is followed by a non-word character other than `@`. |
| `CloudinaryConfig.SecretWithNonWordRejected` | server/config/cloudinary.js:20-21 | A secret broken by a non-word character other than `@` gives no match. |
| `CloudinaryConfig.SecondPiece` | server/config/cloudinary.js:8 | `split('@')[1]` is undefined exactly when the URL has no `@`. |
| `CloudinaryConfig.ConfigCalls` | server/config/cloudinary.js:7-31 | A set variable makes one `cloudinary.config` call with `split('@')[1]`, and a second with the captures exactly when the pattern matches. |
| `CloudinaryConfig.SecondPieceOf` | server/config/cloudinary.js:8 | `split('@')[1]` is the text between the first `@` and the next. |
| `CloudinaryConfig.NoAtInWord` | server/config/cloudinary.js:20 | A `\w` word holds no `@`. |
| `CloudinaryConfig.ConfigsAgree` | server/config/cloudinary.js:7-31 | For a well-formed URL both calls name the same cloud. |
| `CloudinaryConfig.ConfigModule.constructor` | server/config/cloudinary.js:1-5 | Nothing is configured before the module loads. |
| `CloudinaryConfig.ConfigModule.Load` | server/config/cloudinary.js:7-31 | Loading makes the calls of `ConfigCalls`, and the final configuration is the parsed one when the pattern matches. An unset variable makes `.split` throw and configures nothing. |
| `ChatRoomView.OnReceiveMessage` | client/src/components/ChatRoom.jsx:21-23 | A received message is appended and the earlier ones are kept. |
| `ChatRoomView.OnPollUpdated` | client/src/components/ChatRoom.jsx:25-29 | Exactly the entries with the updated message's id are replaced. The length is kept. |
| `ChatRoomView.PollUpdateIdempotent` | client/src/components/ChatRoom.jsx:25-29 | Applying an update twice is applying it once. |
| `ChatRoomView.LaterPollUpdateWins` | client/src/components/ChatRoom.jsx:25-29 | Of two updates of one poll, the later one is shown. |
| `ChatRoomView.PollUpdateOfUnknownMessage` | client/src/components/ChatRoom.jsx:25-29 | An update for a message not in the list changes nothing. |
| `ChatRoomView.PollUpdateAfterReceive` | client/src/components/ChatRoom.jsx:21-29 | A received poll that is then updated shows the update in its place. |
| `ChatRoomView.OptionWithinTotal` | client/src/components/ChatRoom.jsx:144 | No option has more votes than the poll's total. |
| `ChatRoomView.TotalVotes` | client/src/components/ChatRoom.jsx:144 | The total is 0 exactly when no option has a vote. |
| `ChatRoomView.TotalVotesConcat` | client/src/components/ChatRoom.jsx:144 | The total over two groups of options is the sum of their totals. |
| `ChatRoomView.Percentage` | client/src/components/ChatRoom.jsx:144-145 | The share shown is 0 for a poll without votes and lies between 0 and 100. It is the share rounded half up: `2t*p <= 200v+t < 2t*(p+1)`. |
| `ChatRoomView.MulMonotone` | client/src/components/ChatRoom.jsx:145 | Multiplying by a natural number keeps the order. This is an arithmetic step of `Percentage`. |
| `ChatRoomView.RoundedShareBounds` | client/src/components/ChatRoom.jsx:145 | The rounded share of v out of t is between 0 and 100 and is bracketed as in `Percentage`. |
| `ChatRoomView.UnanimousOptionShowsAll` | client/src/components/ChatRoom.jsx:144-145 | The option holding every vote shows 100. |
| `ChatRoomView.OnlyOptionCarriesTotal` | client/src/components/ChatRoom.jsx:144 | When all other options are empty, one option holds the total. |
| `ChatRoomView.NoVotesNoTotal` | client/src/components/ChatRoom.jsx:172 | Options without votes give a total of 0. |
| `ChatRoomView.VoteFlipsTick` | client/src/components/ChatRoom.jsx:77-80 | Clicking an option flips whether it shows the user's vote, and its count moves by one. |
| `ChatRoomView.IsOwn` | client/src/components/ChatRoom.jsx:108-110 | A message is one's own exactly when its sender id, populated or bare, is the user's id. The null and undefined senders compare as the strings `"null"` and `"undefined"`. |
| `ChatRoomView.SenderKey` | client/src/components/ChatRoom.jsx:108 | The key is the sender's id when there is one. An empty populated id falls back to the object form, `"[object Object]"`. The null and missing senders give `"null"` and `"undefined"`. |
| `ChatRoomView.PopulationDoesNotMatter` | client/src/components/ChatRoom.jsx:108 | A populated or a bare sender with the same id give the same answer. |
| `ChatRoomView.AddOption` | client/src/components/ChatRoom.jsx:206 | One empty option is appended. Nothing else changes. |
| `ChatRoomView.EditQuestion` | client/src/components/ChatRoom.jsx:188 | Typing the question changes only the question. |
| `ChatRoomView.EditMessage` | client/src/components/ChatRoom.jsx:215 | Typing the text changes only the text. |
| `ChatRoomView.SetPollCreator` | client/src/components/ChatRoom.jsx:231-237 | The chart button and Cancel only open or close the creator. The question and the options stay as they were, which the stale-question finding rests on. |
| `ChatRoomView.EditOption` | client/src/components/ChatRoom.jsx:197-200 | Only option i changes. |
| `ChatRoomView.OptionsOf` | client/src/components/ChatRoom.jsx:55 | Each option text becomes an option without votes, in order. |
| `ChatRoomView.HandleSendMessage` | client/src/components/ChatRoom.jsx:48-75 | Nothing is sent exactly when the guard as written holds. A poll is sent with its question and options and resets the composer. A text is sent without poll fields and clears only the text. |
| `ChatRoomView.EmptyTextThroughStaleQuestion` | client/src/components/ChatRoom.jsx:50 | Open the creator, type a question, Cancel, then send an empty text. `send_message` is emitted with content `''`. The model server accepts it for any `filter.clean` that returns on `''`. |
| `ChatRoomView.HandleSendMessageIntended` | client/src/components/ChatRoom.jsx:48-75 | Corrected guard: a text is sent only when it is non-empty, so nothing emitted has empty content. Otherwise the behaviour is as written. |
| `ChatRoomView.IntendedDiffersOnlyOnStaleQuestion` | client/src/components/ChatRoom.jsx:50 | The two versions differ exactly on an empty text with the creator closed and a question left over. |
| `ChatRoomView.AddedOptionBlocksPoll` | client/src/components/ChatRoom.jsx:50 | A newly added empty option blocks the poll in both versions. |
| `ChatRoomView.SentPollIsStored` | client/src/components/ChatRoom.jsx:52-60 | Every poll the composer sends is accepted by the server as a poll, with the options in order and no votes. |
| `GlobalChatView.AppendMessage` | client/src/pages/Chat.jsx:119-121 | One entry, stamped, is appended. |
| `GlobalChatView.HandleJoin` | client/src/pages/Chat.jsx:123-131 | An alias that is blank after trimming is refused. Any other alias is kept untrimmed and announced without a picture. |
| `GlobalChatView.HandleSend` | client/src/pages/Chat.jsx:191-204 | A line is sent exactly when the input has a non-space character. It is sent trimmed with the current name and picture, and the input is cleared. |
| `GlobalChatView.SentTextIsTrimmed` | client/src/pages/Chat.jsx:194 | The sent text is non-empty and starts and ends with a non-space character. |
| `GlobalChatView.OnUserJoined` | client/src/pages/Chat.jsx:74-77 | `<name> joined the chat` is appended for an object or a string. `null` appends nothing. |
| `GlobalChatView.OnReceive` | client/src/pages/Chat.jsx:79-96 | One's own name is drawn on the left without sound. Any other name is drawn on the right with the sound. |
| `GlobalChatView.OnLeft` | client/src/pages/Chat.jsx:98-100 | As written: a truthy payload is interpolated whole into `<payload> left the chat`. |
| `GlobalChatView.LeftNoticeNamesNobody` | client/src/pages/Chat.jsx:98-100 | The server's presence entry is shown as `[object Object] left the chat`, whoever left. |
| `GlobalChatView.OnLeftIntended` | client/src/pages/Chat.jsx:98-100 | Corrected: the notice names the departed user. |
| `GlobalChatView.LeaveNoticeMatchesJoinNotice` | client/src/pages/Chat.jsx:74-100 | With the correction, the join and leave notices of one user carry the same name. A bare string is shown as before. |
| `GlobalChatView.OwnLineComesBackLeft` | client/src/pages/Chat.jsx:79-96 | A line one sends returns under one's name, drawn on the left without sound, showing the cleaned text or `'****'`. |
| `GlobalChatView.OthersLineRight` | client/src/pages/Chat.jsx:79-88 | Another user's line is drawn on the right with the sound. |
| `GlobalChatView.PaddedAliasKept` | client/src/pages/Chat.jsx:126-129 | A padded alias is accepted and kept with its padding. |
| `ContestRegistrationForm.SetField` | client/src/pages/ContestRegistration.jsx:23-27 | Exactly one field of the row changes. |
| `ContestRegistrationForm.RemoveAt` | client/src/pages/ContestRegistration.jsx:35 | The row at the index is dropped and the rest keep their order. An index outside the list removes nothing. |
| `ContestRegistrationForm.AddThenRemoveRestores` | client/src/pages/ContestRegistration.jsx:29-38 | Removing the row just added gives back the list. |
| `ContestRegistrationForm.BlankRowRefused` | client/src/pages/ContestRegistration.jsx:44-49 | A list holding a blank row never passes the check. |
| `ContestRegistrationForm.FilledRowAccepted` | client/src/pages/ContestRegistration.jsx:44-49 | Filling all three fields of a row lets it pass. |
| `ContestRegistrationForm.RegistrationForm.constructor` | client/src/pages/ContestRegistration.jsx:7-10 | The form starts as an individual registration with one blank row. |
| `ContestRegistrationForm.RegistrationForm.HandleTypeChange` | client/src/pages/ContestRegistration.jsx:12-21 | Either type resets the list to one blank row. |
| `ContestRegistrationForm.RegistrationForm.HandleMemberChange` | client/src/pages/ContestRegistration.jsx:23-27 | One field of one row changes. |
| `ContestRegistrationForm.RegistrationForm.AddMember` | client/src/pages/ContestRegistration.jsx:29-31 | A blank row is appended. |
| `ContestRegistrationForm.RegistrationForm.RemoveMember` | client/src/pages/ContestRegistration.jsx:33-38 | The row is removed unless it is the only one, so the list is never empty. |
| `ContestRegistrationForm.RegistrationForm.HandleSubmit` | client/src/pages/ContestRegistration.jsx:40-59 | The submit is refused exactly when some row has an empty field, and then nothing changes. Otherwise loading starts and the timer is scheduled. |
| `ContestRegistrationForm.RegistrationForm.TimerFires` | client/src/pages/ContestRegistration.jsx:54-58 | A scheduled timer ends loading and shows success. A success screen always follows a passed submit. |
| `DashboardView.CarouselTick` | client/src/pages/Dashboard.jsx:261-269 | With both modals closed the index moves to the next contest, wrapping at the end. With a modal open it stays. |
| `DashboardView.CarouselInRange` | client/src/pages/Dashboard.jsx:262-265 | The index never leaves the contest list. |
| `DashboardView.CarouselWithinRound` | client/src/pages/Dashboard.jsx:265 | Within one round the index counts up and wraps to 0 once. |
| `DashboardView.CarouselCompose` | client/src/pages/Dashboard.jsx:263-266 | a ticks followed by b ticks are a+b ticks. |
| `DashboardView.FullRoundReturns` | client/src/pages/Dashboard.jsx:263-266 | n ticks return to the start, so the carousel repeats with period n. |
| `DashboardView.ParseRules` | client/src/pages/Dashboard.jsx:458 | The rules are exactly the non-blank lines, and none contains a newline. |
| `DashboardView.RulesKeepOrder` | client/src/pages/Dashboard.jsx:458 | Rules typed one per line come out as typed, in order and untrimmed, with blank lines dropped. |
| `DashboardView.RulesWithoutBlankLines` | client/src/pages/Dashboard.jsx:458 | Without blank lines, every line is a rule. |
| `DashboardView.HandleRestrict` | client/src/pages/Dashboard.jsx:127-135 | A successful request replaces exactly the rows with that id by the server's answer. A failed request changes nothing. |
| `DashboardView.RestrictKeepsMirror` | client/src/pages/Dashboard.jsx:127-135 | A list that mirrors the groups still does after a restrict. |
| `DashboardView.ShowUserDelete` | client/src/pages/Dashboard.jsx:221 | The Delete button shows exactly for non-admin accounts. |
| `ClientLists.HandleDelete` | client/src/pages/Dashboard.jsx:116-125 | After a confirmed, successful request the list holds exactly the other rows. Otherwise it is unchanged. |
| `ClientLists.DeleteKeepsMirror` | client/src/pages/Dashboard.jsx:176-185 | A list that mirrors the table still does after a delete. |
| `ClientLists.DeleteKeepsOthersInOrder` | client/src/pages/Dashboard.jsx:120 | Deleting the one row with an id keeps the rows around it, in order. |
| `ExploreFeed.HandlePostCreated` | client/src/pages/Explore.jsx:32-36 | The new post goes on top, with the current user as author and no comments. The rest of the feed follows unchanged. |
| `ExploreFeed.HandleDeletePost` | client/src/pages/Explore.jsx:38-48 | A confirmed, successful delete drops the post. A declined confirm or a failed request keeps the same feed. |
| `ExploreFeed.DeleteKeepsFeedOrder` | client/src/pages/Explore.jsx:43 | Deleting a post keeps every other post in order. |
| `ExploreFeed.CreateThenDeleteRestores` | client/src/pages/Explore.jsx:32-48 | Creating and then deleting a post gives back the feed. |
| `ExploreFeed.DeleteFollowsServer` | client/src/pages/Explore.jsx:42-43 | The feed mirrors the server's posts before and after a delete. |
| `Stepper.Step` | client/src/components/IntroAnimation.jsx:58-59 | One tick moves up by one below the last step and stays at the last. |
| `Stepper.AfterTicks` | client/src/components/OnboardingTutorial.jsx:52-60 | After k ticks the step shown is min(k, last). |
| `Stepper.AfterInRange` | client/src/components/IntroAnimation.jsx:57-63 | The stepper never passes the last step. |
| `IntroAnimation.Intro.constructor` | client/src/components/IntroAnimation.jsx:47-57 | The first slide is shown. The interval runs only in splash mode. |
| `IntroAnimation.Intro.Tick` | client/src/components/IntroAnimation.jsx:57-63 | A tick moves to the next slide below the last slide. At the last slide the interval stops and the animation is done. |
| `IntroAnimation.Intro.ShowEnter` | client/src/components/IntroAnimation.jsx:240 | The enter button shows exactly in splash mode on the last slide. |
| `IntroAnimation.Intro.ToggleMute` | client/src/components/IntroAnimation.jsx:78-82 | The audio's muted flag and the state flip together. |
| `OnboardingTutorial.Tutorial.constructor` | client/src/components/OnboardingTutorial.jsx:44-46 | At the first step, not started, with no interval. |
| `OnboardingTutorial.Tutorial.HandleStart` | client/src/components/OnboardingTutorial.jsx:48-78 | The first Start sets the interval. |
| `OnboardingTutorial.Tutorial.Tick` | client/src/components/OnboardingTutorial.jsx:51-60 | A tick moves to the next step below the last step. At the last step the interval stops and one completion is scheduled. |
| `OnboardingTutorial.Tutorial.CompletionFires` | client/src/components/OnboardingTutorial.jsx:57 | A scheduled completion calls `onComplete`. |
| `OnboardingTutorial.Tutorial.HandleSkip` | client/src/components/OnboardingTutorial.jsx:80-82 | Skip calls `onComplete` at once, whatever the step. |
| `Seqs.IndexOf` | server/routes/posts.js:88 | The first index of x, or -1 exactly when x is absent. |
| `Seqs.IndexOfAfter` | server/routes/posts.js:88 | When `a` has no x, the first index of x in `a + [x] + b` is the length of `a`. |
| `Seqs.LastIndexOf` | server/routes/posts.js:30 | No occurrence of x lies after the returned index. |
| `Seqs.LastIndexOfAt` | server/routes/posts.js:30 | The last occurrence is where x sits with none after it. |
| `Seqs.RemoveFirst` | server/routes/posts.js:88-89 | `splice(indexOf(x), 1)` removes the first occurrence of x, and the elements before and after it keep their order. The list is unchanged when x is absent. |
| `Seqs.RemoveFirstNoDup` | server/routes/posts.js:88-89 | On a list free of duplicates, that removes x entirely. |
| `Seqs.RemoveFirstAfterAppend` | server/index.js:102-107 | Appending an absent element and removing it restores the list. |
| `Seqs.RemoveFirstAfterPrepend` | server/routes/posts.js:89-91 | Prepending an element and removing it restores the list. |
| `Seqs.Filter` | client/src/pages/Dashboard.jsx:120 | `filter` keeps exactly the elements that pass, and never lengthens the list. |
| `Seqs.FilterConcat` | server/routes/groups.js:93 | Filtering distributes over concatenation. |
| `Seqs.FilterKeepsAll` | client/src/pages/Dashboard.jsx:458 | A filter that rejects nothing is the identity. |
| `Seqs.FilterSingle` | server/routes/groups.js:93 | Filtering a one-element list keeps it exactly when it passes. |
| `Seqs.FilterDropsOne` | server/routes/groups.js:93 | Filtering out one rejected element between kept parts leaves those parts, in order. |
| `Seqs.FilterNoDup` | server/routes/groups.js:93 | Filtering keeps a list free of duplicates. |
| `Seqs.AddToSet` | server/routes/groups.js:47 | `$addToSet` adds x once, keeps the other elements, and keeps the list free of duplicates. |
| `Seqs.ReplaceWhere` | client/src/pages/Dashboard.jsx:130 | `map` with a conditional replaces exactly the matching elements. |
| `Strings.TrimStart` | client/src/pages/Chat.jsx:194 | Strips exactly the leading white space. |
| `Strings.TrimEnd` | client/src/pages/Chat.jsx:194 | Strips exactly the trailing white space. |
| `Strings.TrimShape` | client/src/pages/Chat.jsx:126 | A trimmed string is empty exactly when the input is all white space. Otherwise it starts and ends with a non-space character. |
| `Strings.TrimIdempotent` | client/src/pages/Dashboard.jsx:458 | Trimming twice is trimming once. |
| `Strings.ToLower` | server/routes/posts.js:30 | Lower-cases each character. |
| `Strings.MatchesAnyMonotone` | server/routes/posts.js:28 | More alternatives accept at least as much. |
| `Strings.Split` | client/src/pages/Dashboard.jsx:458 | There is more than one piece exactly when the separator occurs, and no piece contains it. |
| `Strings.SplitAfter` | client/src/pages/Dashboard.jsx:458 | Separator-free text before the first separator is the first piece, and the rest is split after it. |
| `Strings.JoinSplit` | client/src/pages/Dashboard.jsx:458 | Splitting and joining gives back the text. |
| `Strings.SplitJoin` | client/src/pages/Dashboard.jsx:458 | Joining pieces free of the separator and splitting again gives back the pieces. |

## Left out

- Persistence and I/O: Mongo queries are map lookups, with no failure other than the ones the handlers raise themselves. Sort orders (`createdAt: -1`), `populate` field selection and the `select('-password')` projection are not modelled.
- ObjectId casting: a malformed id that makes Mongoose throw a CastError, and the 404 it gives in `DELETE /api/posts/:id`, are not modelled. Ids are plain strings.
- `server/models/Post.js` is not part of this model. Saving a post is assumed to succeed once the handler's own checks pass.
- The read-only routes `GET /api/posts`, `GET /api/groups` and `GET /api/groups/:id` are not modelled. They only query.
- multer errors other than the type filter and the size limit, such as an unexpected field or `maxCount`, are not modelled.
- `Uploads.Extname`: models `path.extname` of a bare file name only, with no directory part. multer passes the client's `originalname`.
- `Strings.ToLower`: lower-cases ASCII letters only, because Unicode case mapping is not available. The upload patterns are all ASCII.
- `ChatRoomView.Percentage`: computed exactly as the share rounded half up, `(200v + t) div 2t`. The floating-point rounding of `votes / total * 100` is not modelled.
- Concurrency: each handler and listener runs as one atomic step. Interleavings of awaits, such as two joins racing between `findById` and `save`, are not modelled.
- Consistency across stores: each server store holds its own copy of the accounts. A user deleted through `UserRoutes` does not disappear from the group or registration stores.
- The Socket.IO transport, acknowledgements, reconnects and room leave on disconnect are modelled only as sets of connection ids.
- `bad-words` is a parameter. Which words it masks is not modelled, and neither is whether its `clean` throws on some text, such as `''`. Only an absent message is modelled as a throw.
- The `_id: Date.now() + Math.random()` of `join_group`'s system notice is not modelled. `ChatServer.SystemNotice` carries no id, and the view gives such a message none. The number never equals a poll's string id, so the `poll_updated` replacement leaves these notices alone either way.
- GSAP timelines, audio playback, sounds, the mouse parallax and all styling are not modelled. The `isMuted` flag is modelled as state.
- `OnboardingTutorial.Tutorial.Tick`: re-running the effect when the `onComplete` prop changes identity is not modelled. The interval is set once per Start.
- `ContestRegistrationForm.RegistrationForm.HandleMemberChange`: the handler shallow-copies the list and mutates the shared member object in place. The model writes a new row value, so that aliasing is not captured. No rendered behaviour depends on it.
- `ContestRegistrationForm.RegistrationForm.HandleSubmit`: the page sends no request to the server. It only schedules a timer, and the model does the same.
- The Chat.jsx auto-join from `localStorage`, the rules overlay, its `handleBlockUser` admin button and the typing sounds are not modelled. ChatRoom's initial `fetchMessages` load is not modelled either.
- Cloudinary: the SDK's own detection of `CLOUDINARY_URL` in the environment and the `CloudinaryStorage` upload parameters are not modelled. Only the two explicit `cloudinary.config` calls are.

## Findings

| source | as written | input that shows it | evidently intended | confidence | as-written member | corrected member |
|---|---|---|---|---|---|---|
| client/src/components/ChatRoom.jsx:50 | The guard refuses an empty text only when no poll question is pending. Cancel at lines 235-237 closes the creator without clearing `pollQuestion`. | Open the poll creator, type a question, press Cancel, and submit an empty text. `send_message` goes out with content `''`. Whether the server then stores it depends on `filter.clean('')` returning normally. The model assumes it does, because `filter.clean` is a parameter; if it throws, the catch at server/index.js:91-93 drops the message. | In text mode, an empty text is never sent. | not executed | `ChatRoomView.EmptyTextThroughStaleQuestion` | `ChatRoomView.IntendedDiffersOnlyOnStaleQuestion` |
| client/src/pages/Chat.jsx:98-100 | The `left` listener interpolates its whole payload. The server emits the presence entry object `{name, profilePicture}` at server/index.js:162. | Any user who announced a name and then disconnects is shown as `[object Object] left the chat`. | The notice names the user who left, like the join notice. | not executed | `GlobalChatView.LeftNoticeNamesNobody` | `GlobalChatView.LeaveNoticeMatchesJoinNotice` |
