# Models of the Voxpery server and client

This project models the parts of Voxpery whose correctness spans several functions, requests or
transactions, and proves what they keep.

- **Channels and categories** (`channel_*.dfy`). One server's tables: categories keyed by name, overrides
  keyed by category name, channels pointing at categories by name. `ChannelStore` and `ChannelReorder` say
  what each handler does, `ChannelTables` runs the handlers statement by statement and proves that they do
  that, and `ChannelSafety` and `ChannelResults` prove what runs and calls keep and bring about. `ChannelRaces`
  and `ChannelCalm` split four handlers into check and write and let others commit in between. Permissions
  are an arbitrary answer per caller; only "is the owner" is real. Which characters are letters or digits and
  what `LOWER` makes of them is an arbitrary alphabet. Where a query orders rows, the call carries
  an order the database may answer.
- **Message markdown** (`markdown_*.dfy`). The six patterns as matchers over UTF-16 code units, the parser
  with its loops, and the theorems. Which units are letters or digits (`\p{L}`, `\p{N}`) is left open. Nodes
  record what the parser strips (which delimiter, which language tag, which newline), so that a tree can be
  printed.
- **Account tokens** (`account_tokens.dfy`), **sending DMs** (`dm_send.dfy`), **DM privacy**
  (`dm_privacy.dfy`), **group DMs** (`group_dm.dfy`, `group_deletion.dfy`), **server hand-over**
  (`server_handover.dfy`) and **uploads** (`uploads.dfy`) are transition systems: a step is a statement, or
  the statements one lock makes indivisible, and any number of requests interleave. Locks, unique indexes
  and foreign keys are conditions on when a step can be taken. `NOW()` is a number a step carries. A
  published event is an entry in a log.
- **Group handlers** (`group_tables.dfy`): each either makes its transition or refuses exactly where there is
  none.
- **One upload request** (`upload_request.dfy`): the form loop, the quota, the roll-back and the clean-up
  loop on one account.
- **Client state**: the conversation cache (`dm_cache.dfy`), the merge of pages with local messages
  (`message_merge.dfy`), drafts (`message_drafts.dfy`), over a shared stable sort (`stable_sort.dfy`).
- **Stream preview** (`stream_preview.dfy`) over exact real numbers, **keyset paging** (`dm_paging.dfy`),
  **scrolling back** while messages come and go (`dm_history.dfy`) and **search escaping**
  (`like_escape.dfy`, section 9.7.1 of the PostgreSQL manual).

Six promises do not always hold. Each has the exact condition and a concrete run for each way it fails:

- After a friendship ends, a friends-only user can get messages from the former friend in exactly two cases
  (`DmPrivacy.AfterRemovalExactly`). A send that is past its check when the removal commits is still
  inserted, since the two are separate transactions (`DmPrivacy.CheckedBeforeDeliveredAfter`). And a message
  the user writes while the removal runs is stamped after the removal began, so it counts as written since:
  the former friend can then answer any number of times (`DmPrivacy.WrittenDuringRemoval`,
  `DmPrivacy.AnswersWithoutEnd`).
- A group DM can lose its owner, or stay stored without any member, when someone puts a user into it while
  that user's account is being deleted (`GroupDeletion.CommitKeepsExactly`, `GroupDeletion.OrphansExactly`,
  `GroupDeletion.OwnerLost`, `GroupDeletion.EmptyGroupStays`).
- A server that comes to a user while the user's own deletion runs goes to the placeholder even if it has
  other members; one found at the start of the deletion never does while it has another
  (`ServerHandover.PlaceholderExactly`, `ServerHandover.CrossedDeletions`).
- A non-owner can take a category's override rows from channels that stay in it, by deleting it: the handler
  compares the target's name with the category's as ASCII goes, the database after `LOWER`, so a target that
  differs in the case of another letter is the category itself (`ChannelSafety.RowsKeptExactly`,
  `ChannelSafety.CategoryLosesItself`). With ASCII names the promise holds over all runs
  (`ChannelSafety.AsciiRunsKeepOverrides`).
- Calls that overlap can do so too, since a check may no longer hold when its write is made
  (`ChannelRaces.WriteExactly`, `ChannelCalm.RenameMeetsDeletion`). Calls that keep out of each other's way
  cannot (`ChannelCalm.CalmRacesKeepOverrides`).
- Scrolling back can end before the first message, when the client continues from a message that is deleted
  (`DmHistory.MissingExactly`, `DmHistory.FirstMissed`).

Three smaller ones hold under a condition that is stated with them: a saved draft is read back unless 80
entries as new as it stand before it (`MessageDrafts.SavedThenRead`), a cache update reaches exactly its
user's conversations as long as ids hold no colon (`DmCache.PrefixIsUser`), and an override is removed by the
name it was written under if that is the category's own spelling (`ChannelResults.RemovalFindsExactly`).

## Model

| member | source | states |
|---|---|---|
| `ChannelSafety.NonOwnersNeverChangeOverrides` | apps/server/src/routes/channels.rs:262-361 | over every run of channel and category calls by non-owners of which none moves channels into the category it deletes, a channel that is never deleted ends under exactly the override rows it began under |
| `ChannelSafety.RowsKeptExactly` | apps/server/src/routes/channels.rs:693-821 | a call by anyone who is not the owner leaves the override rows that apply to each channel what they were, exactly unless it is a deletion of a category with rows, by one who may manage it, whose target is a valid name that LOWER takes for the category |
| `ChannelSafety.AsciiRunsKeepOverrides` | apps/server/src/routes/channels.rs:262-361 | where deletions name ASCII categories and targets: over every run by non-owners a channel that is never deleted keeps its override rows, whatever else is called |
| `ChannelSafety.IntoItselfAccepted` | apps/server/src/routes/channels.rs:693-821 | a deletion into itself goes through exactly if its caller manages channels and the category and the target is a valid name; refused, it changes nothing |
| `ChannelSafety.AlphabetStays` | apps/server/src/routes/channels.rs:63-1131 | no call changes the alphabet |
| `ChannelSafety.CallKeepsExactly` | apps/server/src/routes/channels.rs:693-821 | a call by anyone keeps category names unique up to case, overrides and channels naming existing categories, and the unique index, exactly unless it is a deletion into itself that the same guard lets through |
| `ChannelSafety.CallKeeps` | apps/server/src/routes/channels.rs:693-821 | every other call keeps all that, and by a non-owner also every channel's override rows |
| `ChannelSafety.RunsKeepExactly` | apps/server/src/routes/channels.rs:693-821 | over a whole run the invariant holds all along exactly if no call is such a deletion |
| `ChannelSafety.DeletionKeepsExactly` | apps/server/src/routes/channels.rs:725-752 | a deletion keeps the invariant exactly unless its target differs from the category as ASCII goes and not after LOWER, and its caller may manage the category and the target is a valid name |
| `ChannelSafety.IntoItselfLoses` | apps/server/src/routes/channels.rs:775-812 | what such a deletion leaves: its channels stay in the dropped category, without its override rows |
| `ChannelSafety.AsciiMovesElsewhere` | apps/server/src/routes/channels.rs:725-752 | between ASCII names no deletion is one |
| `ChannelSafety.CategoryLosesItself` | apps/server/src/routes/channels.rs:725-812 | a concrete one, by a caller who is not the owner |
| `ChannelSafety.RenameChannelKeeps` | apps/server/src/routes/channels.rs:262-361 | a rename or move of a channel by a non-owner leaves its override rows what they were, through canonical names, new categories and the move check |
| `ChannelSafety.DeleteCategoryKeeps` | apps/server/src/routes/channels.rs:693-821 | any other deletion moves the channels where the same rows apply, or is the owner's; nothing is left naming the deleted category |
| `ChannelSafety.RenameCategoryKeeps` | apps/server/src/routes/channels.rs:823-930 | renaming a category carries its channels and overrides along: every channel keeps its rows, also when only the case changes |
| `ChannelSafety.EnsureKeeps` | apps/server/src/routes/channels.rs:1253-1294 | the ensured category adds at most a row of its own, and its override rows are those its name resolved to before |
| `ChannelSafety.RowsOfExisting` | apps/server/src/routes/channels.rs:1194-1220 | for a category that exists, the rows resolved up to case are the rows stored under its exact name |
| `ChannelSafety.BackfillNeverWrites` | apps/server/src/routes/channels.rs:1296-1330 | at no point of a run without such a deletion is a category named by a channel without its row, so the backfill never adds one |
| `ChannelSafety.MovedIndex` | apps/server/src/routes/channels.rs:693-821 | channels moved without a clash keep the unique index of category, type and name |
| `ChannelResults.CreatedLast` | apps/server/src/routes/channels.rs:63-176 | a created channel is the only change, in the category its name resolves to, after all others there, with at most 500 in all |
| `ChannelResults.MovedBehind` | apps/server/src/routes/channels.rs:776-792 | channels of a deleted category end up behind those of the target in their old order; no other channel changes |
| `ChannelResults.TextChannelStays` | apps/server/src/routes/channels.rs:179-259 | no call by anyone takes away a server's last text channel |
| `ChannelResults.RankedInOrder` | apps/server/src/routes/channels.rs:403-417 | with each channel listed once, the channels of a category end up in the order listed, counted from 0 |
| `ChannelResults.OverrideWritten` | apps/server/src/routes/channels.rs:964-1016 | an override the owner writes reaches exactly the channels of the category the name resolves to: their rows change at that role and nowhere else, and every other channel keeps its rows |
| `ChannelResults.RemovalFindsExactly` | apps/server/src/routes/channels.rs:964-1049 | an override written under a name goes by a removal under the same name exactly if that is the category's own spelling or the category was new; otherwise the removal is accepted and changes nothing |
| `ChannelResults.HiddenUntouched` | apps/server/src/routes/channels.rs:1163-1190 | a call of any handler that touches a category hidden from the caller leaves all tables as they were, whatever else it asks for |
| `ChannelResults.HiddenKeepsPlace` | apps/server/src/routes/channels.rs:1107-1114 | a reorder by a caller who cannot see a category leaves it at its index among all |
| `ChannelReorder.AcceptedReorder` | apps/server/src/routes/channels.rs:1051-1124 | an accepted reorder gives the categories the positions 0 to n-1 one to one, leaves each hidden one at its index and puts the visible ones in exactly the requested order |
| `ChannelReorder.MergedKeepsPlaces` | apps/server/src/routes/channels.rs:1107-1114 | with as many names as visible places the merge never falls back on the current name |
| `ChannelReorder.MergedOrder` | apps/server/src/routes/channels.rs:1107-1114 | the merged order holds every listed category exactly once |
| `ChannelReorder.RankedKeepsRest` | apps/server/src/routes/channels.rs:365-428 | reordering channels changes nothing but positions, also when ids repeat |
| `ChannelNames.ValidateName` | apps/server/src/routes/channels.rs:1333-1363 | the loop accepts exactly the names of allowed characters, of allowed length and without two spaces in a row, whichever characters are letters and digits |
| `ChannelTables.Tables.CategoryOverrideRows` | apps/server/src/routes/channels.rs:1194-1220 | answers the rows of the category a name resolves to, none for no name |
| `ChannelTables.Tables.EnsureCategoryMoveAllowed` | apps/server/src/routes/channels.rs:1225-1251 | allows exactly moves within a category, between equal rows, and the owner's |
| `ChannelTables.Tables.EnsureCategoryExists` | apps/server/src/routes/channels.rs:1253-1294 | answers the existing name or adds the category after all others, and keeps the invariant |
| `ChannelTables.Tables.CreateChannel` | apps/server/src/routes/channels.rs:63-176 | after all checks the channel is stored last in its canonical category, up to 500 and never against the unique index; a refusal leaves no channel; the invariant holds |
| `ChannelTables.Tables.DeleteChannel` | apps/server/src/routes/channels.rs:179-259 | removes exactly that channel for a caller who manages it, never the last text channel |
| `ChannelTables.Tables.RenameChannel` | apps/server/src/routes/channels.rs:262-361 | renames and moves after the move and manage checks, in the order of the code, and keeps the unique index |
| `ChannelTables.Tables.CreateCategory` | apps/server/src/routes/channels.rs:656-691 | adds a category of a new valid name after all others |
| `ChannelTables.Tables.DeleteCategory` | apps/server/src/routes/channels.rs:693-821 | moves the channels or finds none, then drops the category and its overrides; each refusal leaves the tables as the code does; with a target that LOWER takes for the category the tables stay in order exactly if the deletion is refused, else always |
| `ChannelTables.Tables.MoveChannels` | apps/server/src/routes/channels.rs:776-792 | the move loop updates all listed channels in order, or meets the unique index and leaves every channel as it was |
| `ChannelTables.ClashWhileMoving` | apps/server/src/routes/channels.rs:784-792 | an update in the middle of the loop meets the index exactly if it would have at its start |
| `ChannelTables.Tables.RenameCategory` | apps/server/src/routes/channels.rs:823-930 | the three updates together are the renaming of the specification |
| `ChannelTables.Tables.UpdateCategoryOverride` | apps/server/src/routes/channels.rs:964-1016 | the owner's upsert writes the row under the canonical name; anyone else is refused |
| `ChannelTables.Tables.DeleteCategoryOverride` | apps/server/src/routes/channels.rs:1018-1049 | the owner's deletion removes exactly that role's row |
| `ChannelTables.Tables.ReorderCategories` | apps/server/src/routes/channels.rs:1051-1131 | the checks and the two loops do what the accepted-reorder theorem is about |
| `ChannelTables.Tables.NamesAre` | apps/server/src/routes/channels.rs:1088-1105 | the check loop accepts exactly lists of different, non-empty trimmed names that are the visible ones |
| `ChannelTables.Tables.PlaceMerged` | apps/server/src/routes/channels.rs:1107-1124 | the merge loop with its iterator writes the merged order |
| `ChannelTables.Tables.RankChannels` | apps/server/src/routes/channels.rs:403-417 | the position map gives each channel the number of earlier ones of its category |
| `ChannelRaces.WriteExactly` | apps/server/src/routes/channels.rs:784-792 | whatever others have committed since its check, a write that goes through keeps the invariant exactly if what it writes to still exists and the deleted category holds nothing else, and every channel's override rows exactly if those before and after are equal |
| `ChannelRaces.RacesKeepExactly` | apps/server/src/routes/channels.rs:63-361 | over any interleaving of checks and writes the tables stay in order exactly if every write that goes through meets that condition |
| `ChannelRaces.AtOnce` | apps/server/src/routes/channels.rs:63-361 | a call whose write follows its check at once does what the handler does as one step |
| `ChannelRaces.MoveAtOnce` | apps/server/src/routes/channels.rs:784-792 | the updates of a move one by one, with the unique index asked at each, give the move as one step |
| `ChannelCalm.CalmRacesKeepOverrides` | apps/server/src/routes/channels.rs:262-361 | over every interleaving by non-owners in which no category is deleted or renamed while a channel is about to be written, and no channel is written while a deletion is open, a channel that is never deleted keeps its override rows |
| `ChannelCalm.CheckReady` | apps/server/src/routes/channels.rs:262-324 | what a check by a non-owner has seen makes its write keep invariant and rows |
| `ChannelCalm.RenameMeetsDeletion` | apps/server/src/routes/channels.rs:262-330 | otherwise it can fail: a rename checked before a deletion and written after it leaves a channel in no category and without its rows |
| `MarkdownTheorems.Lossless` | apps/web/src/messageMarkdown.ts:84-100 | printing the parsed tree, with the delimiters, tags and newlines it records, gives back the message exactly, for every message |
| `MarkdownTheorems.NoPlaceholderLeaks` | apps/web/src/messageMarkdown.ts:71-82 | some text, code or opener of the result holds a placeholder character exactly if the message itself does |
| `MarkdownTheorems.PushedLossless` | apps/web/src/messageMarkdown.ts:88-91 | pushing nodes onto any list, joining text to text, loses no character |
| `MarkdownTheorems.EmphasisLossless` | apps/web/src/messageMarkdown.ts:37-57 | emphasis parsing of masked text prints back to the restored text at every depth |
| `MarkdownTheorems.RestoreMask` | apps/web/src/messageMarkdown.ts:71-82 | masking links and mentions and restoring them is the identity on text without placeholders |
| `MarkdownTheorems.LinksStayWhole` | apps/web/src/messageMarkdown.ts:71-100 | every link or mention of a message, found in a piece between its code, ends up contiguous and unchanged in one text leaf of the result |
| `MarkdownTheorems.ProtectedStayWhole` | apps/web/src/messageMarkdown.ts:71-82 | the same of one piece, masked or not |
| `MarkdownTheorems.EmphasisHolds` | apps/web/src/messageMarkdown.ts:37-57 | wherever emphasis splits masked text, the part behind a placeholder stays in one leaf |
| `MarkdownTheorems.BestIsFirst` | apps/web/src/messageMarkdown.ts:41-47 | the chosen emphasis is a match, no pattern has one further left, and an earlier pattern wins a tie |
| `MarkdownTheorems.BestIsFound` | apps/web/src/messageMarkdown.ts:41-47 | the chosen emphasis is the first match of its own pattern |
| `MarkdownParser.MessageWellFormed` | apps/web/src/messageMarkdown.ts:26-57 | no node list has empty or adjacent text nodes, emphasis nests at most four deep and holds no code |
| `MarkdownParser.FindBest` | apps/web/src/messageMarkdown.ts:41-47 | the loop over the patterns finds the specified best match |
| `MarkdownParser.EmphasisNodes` | apps/web/src/messageMarkdown.ts:37-57 | the loop over the rest builds the specified nodes, each emphasis by a call of itself one deeper |
| `MarkdownParser.InlineNodes` | apps/web/src/messageMarkdown.ts:59-69 | the loop over inline code builds the specified nodes from what the emphasis parser gives for the pieces between |
| `MarkdownParser.PushNodes` | apps/web/src/messageMarkdown.ts:88-91 | the loop pushes any nodes onto any list, joining a text to a text before it |
| `MarkdownParser.PushedWellFormed` | apps/web/src/messageMarkdown.ts:88-91 | pushing well-formed nodes onto well-formed ones leaves no empty and no two adjacent text nodes, whatever the lists end and begin with |
| `MarkdownParser.MessageNodes` | apps/web/src/messageMarkdown.ts:84-100 | the loop over code blocks builds the specified nodes from what the inline loop gives for the pieces between |
| `MarkdownParser.ParseMessageMarkdown` | apps/web/src/messageMarkdown.ts:84-100 | the imperative parser computes the tree the theorems are about |
| `MarkdownParser.MatchesChain` | apps/web/src/messageMarkdown.ts:62-66 | the matches of a code pattern stand one after the other between their delimiters |
| `MarkdownPatterns.FindIsLeftmost` | apps/web/src/messageMarkdown.ts:19-24 | no match of a pattern starts before the one found |
| `MarkdownPatterns.CloseIsEarliest` | apps/web/src/messageMarkdown.ts:13-24 | no match from the same start ends before the one found |
| `MarkdownPatterns.FindMatches` | apps/web/src/messageMarkdown.ts:13-24 | what is found is a match of the pattern |
| `MarkdownPatterns.TagHidesNoFence` | apps/web/src/messageMarkdown.ts:13 | taking a language tag greedily never skips a match that a shorter tag would have given |
| `AccountTokens.LinksNeverOutliveSessions` | apps/server/src/routes/auth_account.rs:551-622 | in every interleaving of statements under row locks each committed link belongs to its account's current version, every address change came from a link of the then current session, and no token was used twice |
| `AccountTokens.RunKeeps` | apps/server/src/routes/auth_account.rs:432-464 | every run of statements, commits and aborts keeps the invariant that says so |
| `AccountTokens.CommitKeeps` | apps/server/src/routes/auth_account.rs:96-114 | a commit that bumps the version has deleted every link of the old one, those committed meanwhile included |
| `AccountTokens.StatementOk` | apps/server/src/routes/auth_password_reset.rs:181-210 | no statement breaks what another open transaction relies on |
| `AccountTokens.LooseKeeps` | apps/server/src/routes/auth_password_reset.rs:78-92 | aborts, dropped links and reset tokens issued outside a transaction keep the invariant |
| `DmSend.SendIsIdempotent` | apps/server/src/routes/dm.rs:844-966 | in every interleaving of sends, edits and deletions at most one live message has a channel, sender and key, every answer matches its request and nothing is published twice |
| `DmSend.RetriesGetOneMessage` | apps/server/src/routes/dm.rs:863-888 | retries of a keyed send all answer with one message while nothing is deleted |
| `DmSend.AnswersStayStored` | apps/server/src/routes/dm.rs:929-946 | while nothing is deleted every keyed answer names a stored message with its key |
| `DmSend.StepKeeps` | apps/server/src/routes/dm.rs:896-946 | each statement, commit, failure, edit and deletion keeps the invariant |
| `DmPrivacy.ClosedHoldsExactly` | apps/server/src/routes/dm.rs:528-592 | once a friends-only user is closed to a sender, no run delivers a message before they reopen exactly if no send of that sender is past its check |
| `DmPrivacy.OnlyAfterReopening` | apps/server/src/routes/dm.rs:595-612 | a message delivered later follows an answer, a new friendship or a change of setting, or was past its check before |
| `DmPrivacy.ClosedUntil` | apps/server/src/routes/friends.rs:220-273 | only a message of the closed user, an accepted request of the two or the setting "everyone" opens the pair |
| `DmPrivacy.StaysClosed` | apps/server/src/routes/dm.rs:528-592 | until then the pair stays closed over whole runs and no send passes its check |
| `DmPrivacy.AfterRemovalExactly` | apps/server/src/routes/friends.rs:319-356 | when a friendship ends, a friends-only user gets a later message of the former friend before reopening in exactly two cases: a send is past its check at the commit, or a message of theirs is stamped after the removal began |
| `DmPrivacy.LeaksExactly` | apps/server/src/routes/dm.rs:528-592 | in any state: someone who is no friend can reach a friends-only user exactly if a send is past its check or a message of that user still counts |
| `DmPrivacy.AnswersWithoutEnd` | apps/server/src/routes/dm.rs:568-592 | one message that counts lets any number of messages through, without another word of its author |
| `DmPrivacy.RemovalCloses` | apps/server/src/routes/friends.rs:319-356 | after the removal a message of the user counts exactly if one is stamped after the removal began, whichever committed first |
| `DmPrivacy.CheckedBeforeDeliveredAfter` | apps/server/src/routes/dm.rs:841-842 | the promise fails in one concrete run: a removal commits between check and insert, and the message still arrives |
| `DmPrivacy.WrittenDuringRemoval` | apps/server/src/routes/friends.rs:319-356 | and in another: the user writes while their own removal runs, and the former friend can answer without end |
| `GroupDm.CountAdmitsFriends` | apps/server/src/routes/dm.rs:1015-1035 | the one COUNT query admits a list without repetition exactly if everyone on it is a friend |
| `GroupDm.PickMembers` | apps/server/src/routes/dm.rs:1115-1120 | the list-building loop gives the specified list |
| `GroupDm.PickedOnce` | apps/server/src/routes/dm.rs:1192-1197 | that list names each new person exactly once and nobody known |
| `GroupDm.RemovalHandsOver` | apps/server/src/routes/dm.rs:1228-1263 | a removal keeps the owner or hands the group to one who joined no later than anyone left; the group goes with its last member |
| `GroupDeletion.GroupsStayInOrder` | apps/server/src/routes/dm.rs:1183-1269 | in every run where nobody puts a user into a group during that user's deletion, each group has one to eight members, its owner among them |
| `GroupDeletion.GoesToTheFirst` | apps/server/src/routes/auth_account_data.rs:773-788 | in every run: when a deletion commits, a group it locked and not deleted, that its user owned or nobody did, belongs to the one who joined first (smaller id on a tie) of all who are left, whatever other deletions took from it meanwhile; any other keeps its owner |
| `GroupDeletion.StepKeepsHeirs` | apps/server/src/routes/auth_account_data.rs:757-791 | the new owners a deletion has written stay the first of those left, through every step of others |
| `GroupDeletion.CommitKeepsExactly` | apps/server/src/routes/auth_account_data.rs:757-791 | the commit of an account deletion keeps that exactly if the user owns no group the deletion has neither locked nor deleted |
| `GroupDeletion.OrphansExactly` | apps/server/src/routes/auth_account_data.rs:769-791 | and exactly which groups fail: without an owner those the user so owned, and stored without a member those of them where the user was alone |
| `GroupDeletion.StepKeeps` | apps/server/src/routes/auth_account_data.rs:757-791 | every other step keeps it: create, add, remove, leave, befriend and each statement of a deletion |
| `GroupDeletion.BereavedOk` | apps/server/src/routes/auth_account_data.rs:774-788 | a group left by a deleted user is in order exactly if it was locked or had another owner |
| `GroupDeletion.AllLockedKeeps` | apps/server/src/routes/auth_account_data.rs:757-768 | a deletion's user is in no group it has not locked until someone names them |
| `GroupDeletion.OwnerLost` | apps/server/src/routes/auth_account_data.rs:757-787 | a concrete run that leaves a group with a member and no owner |
| `GroupDeletion.EmptyGroupStays` | apps/server/src/routes/auth_account_data.rs:769-791 | a concrete run that leaves a group stored without any member |
| `GroupTables.Tables.EnsureFriendsWith` | apps/server/src/routes/dm.rs:1015-1035 | answers yes exactly if everyone on the list is a friend |
| `GroupTables.Tables.CreateGroupDm` | apps/server/src/routes/dm.rs:1099-1159 | creates the group of the transition, or refuses exactly where there is none and changes nothing; groups stay in order |
| `GroupTables.Tables.AddGroupDmMembers` | apps/server/src/routes/dm.rs:1183-1225 | adds the picked friends, or refuses exactly where the transition is impossible; groups stay in order |
| `GroupTables.Tables.RemoveGroupDmMember` | apps/server/src/routes/dm.rs:1228-1269 | removes one, hands over or deletes the group, or refuses exactly where the transition is impossible |
| `ServerHandover.OwnersStayMembers` | apps/server/src/routes/auth_account_data.rs:656-710 | in every interleaving of deletions, joins, leaves, kicks and new servers each server's owner has an account and is a member |
| `ServerHandover.GoesToTheFirst` | apps/server/src/routes/auth_account_data.rs:661-693 | a server a deletion finds owned goes to the member who outranked all others when it was handed over, who is a member still; without one to the placeholder |
| `ServerHandover.SuccessorOutranks` | apps/server/src/routes/auth_account_data.rs:668-686 | there is a successor exactly if there is another real member, and it outranks each by best role position (none last), join time, id |
| `ServerHandover.PlaceholderExactly` | apps/server/src/routes/auth_account_data.rs:661-710 | in every interleaving: when a deletion commits, a server of its user that has another real member falls to the placeholder exactly if the deletion had not found it at its start |
| `ServerHandover.RulesKeep` | apps/server/src/routes/auth_account_data.rs:661-700 | at every point of a run a server found and handed over has a real heir, or no real member left to be one |
| `ServerHandover.CandidatesShrink` | apps/server/src/routes/auth_account_data.rs:661-665 | while a server is locked for a deletion nobody else gives it another real member |
| `ServerHandover.CrossedDeletions` | apps/server/src/routes/auth_account_data.rs:662-710 | two deletions crossing, step by step to the second commit: a server that still has a real member ends with the placeholder |
| `ServerHandover.DecisionStands` | apps/server/src/routes/auth_account_data.rs:667-693 | a decision taken at the hand-over is not changed before the commit |
| `ServerHandover.StepKeeps` | apps/server/src/routes/auth_account_data.rs:802-805 | each step keeps the invariant; a commit by the locks and the foreign key of the owner |
| `ServerHandover.StatementsTogether` | apps/server/src/routes/auth_account_data.rs:667-805 | the loop's update and the three after it hand one server over and leave its owner a member |
| `ServerHandover.Tables.HandOverEach` | apps/server/src/routes/auth_account_data.rs:667-693 | the loop changes exactly the owners of servers with a successor |
| `ServerHandover.Tables.DeleteAccount` | apps/server/src/routes/auth_account_data.rs:656-805 | a deletion alone leaves every server as specified and every owner a member |
| `Uploads.ChargedExactlyOnce` | apps/server/src/routes/attachments.rs:127-293 | in every interleaving of uploads, failures and releases the used bytes are the sum of the rows and at most 1 GiB, no content is charged twice and each row's file is stored |
| `Uploads.NoFileIsLeftOver` | apps/server/src/routes/attachments.rs:296-310 | once all requests and queued deletions are over, the stored files are exactly those of the rows |
| `Uploads.RepliesAreStored` | apps/server/src/routes/attachments.rs:183-221 | a committed request answers with stored rows and files, whatever ran beside it |
| `Uploads.CommitKeeps` | apps/server/src/routes/attachments.rs:107-113 | rows of one transaction joining the table repeat no content and break no other transaction |
| `Uploads.ReleaseKeeps` | apps/server/src/services/attachment_release.rs:153-169 | a release frees exactly the bytes of its row |
| `Uploads.FilesKeep` | apps/server/src/routes/attachments.rs:242-310 | every step keeps each stored file with one holder: a row, a running request or the queue |
| `UploadRequest.Account.UploadAttachments` | apps/server/src/routes/attachments.rs:94-124 | a request that fails anywhere leaves rows, counter and files as they were; one that succeeds keeps the account in order |
| `UploadRequest.Account.ProcessAttachmentUpload` | apps/server/src/routes/attachments.rs:127-293 | the loop over the form does what the specification says, stopping at the first error |
| `UploadRequest.Account.CleanupFailedUploadFiles` | apps/server/src/routes/attachments.rs:296-310 | the clean-up loop removes exactly the stored keys |
| `UploadRequest.EveryFileAnswered` | apps/server/src/routes/attachments.rs:149-287 | without an error the reply names one row per file, in order and with its content |
| `UploadRequest.RepliesInTable` | apps/server/src/routes/attachments.rs:183-287 | every row of the reply is in the table |
| `UploadRequest.ContentsAdded` | apps/server/src/routes/attachments.rs:183-287 | the table's contents grow by exactly those of the files |
| `UploadRequest.SecondUploadIsFree` | apps/server/src/routes/attachments.rs:183-221 | sending the same files again charges and stores nothing and gives the same answer, even with a full quota |
| `UploadRequest.TakenInOrder` | apps/server/src/routes/attachments.rs:223-287 | every accepted file keeps the counter the sum of the rows and one file per row |
| `UploadRequest.TakenStores` | apps/server/src/routes/attachments.rs:242-246 | whatever happens, the files without those just stored are the files before |
| `DmCache.CacheAgreesWithLog` | apps/web/src/dmMessageCache.ts:18-42 | after any run of sets, gets and updates the cache holds the 16 most recently touched keys in the order of their last touch, with their latest values |
| `DmCache.CachedExactly` | apps/web/src/dmMessageCache.ts:37-41 | a key is cached exactly if it was touched and fewer than 16 others were touched since |
| `DmCache.RecentOrdered` | apps/web/src/dmMessageCache.ts:23-24 | the keys stand in the order of their last touch |
| `DmCache.PrefixIsUser` | apps/web/src/dmMessageCache.ts:77-79 | with ids without a colon an update rewrites exactly its user's conversations |
| `DmCache.KeysDiffer` | apps/web/src/dmMessageCache.ts:14-16 | two pairs of a user and a conversation with ids without a colon never share a key |
| `DmCache.MessageCache.GetCachedDmMessages` | apps/web/src/dmMessageCache.ts:18-26 | a hit answers the value and makes its key the newest; a miss changes nothing |
| `DmCache.MessageCache.SetCachedDmMessages` | apps/web/src/dmMessageCache.ts:28-42 | the eviction loop leaves the newest 16 entries |
| `DmCache.MessageCache.UpdateCachedDmMessages` | apps/web/src/dmMessageCache.ts:73-83 | the loop rewrites the matching entries in place |
| `MessageMerge.MergedWindow` | apps/web/src/messageResilience.ts:55-63 | merging a suffix of the log into a window of it gives a suffix without gap, repeat or reorder, from the old window's start if they connect |
| `MessageMerge.OwnMessagesOnce` | apps/web/src/messageResilience.ts:31-48 | each retryable local is in the merge exactly once and nothing stays sending |
| `MessageMerge.MergeParts` | apps/web/src/messageResilience.ts:31-48 | the merge is in order of time, its confirmed messages are the page and its own the settled locals |
| `MessageMerge.HistoryIsWindow` | apps/web/src/messageResilience.ts:57-61 | the kept history is exactly the part of the window before the page |
| `MessageMerge.ConfirmedOnce` | apps/web/src/messageResilience.ts:65-90 | a confirmed message ends up in the list once, in place of every copy; all others keep their order |
| `StableSort.SortedOrdered` | apps/web/src/messageResilience.ts:46 | the sort orders its input and loses nothing |
| `StableSort.KeptSorted` | apps/web/src/messageResilience.ts:46 | the sort is stable: it commutes with every filter |
| `MessageDrafts.PruneLater` | apps/web/src/messageDrafts.ts:53-67 | pruning early never changes a later pruning, order and ties included |
| `MessageDrafts.NewestKept` | apps/web/src/messageDrafts.ts:53-67 | what is kept is fresh, newest first, and what is fresh and missing was crowded out by 80 no older |
| `MessageDrafts.SavedThenRead` | apps/web/src/messageDrafts.ts:136-160 | a saved draft read later comes back exactly if it has not expired and fewer than 80 entries were ahead of it |
| `MessageDrafts.SavedComesBack` | apps/web/src/messageDrafts.ts:126-134 | with no other entry as new it comes back until it expires |
| `MessageDrafts.BlankClears` | apps/web/src/messageDrafts.ts:147-149 | a blank text clears the draft |
| `MessageDrafts.SortedAt` | apps/web/src/messageDrafts.ts:60 | sorted, an entry stands behind exactly the newer ones and the ties before it |
| `MessageDrafts.Drafts.LoadStore` | apps/web/src/messageDrafts.ts:69-89 | loads the cached store, or the stored one, pruned |
| `MessageDrafts.Drafts.SaveMessageDraft` | apps/web/src/messageDrafts.ts:136-160 | leaves the store the specification says and schedules a flush |
| `MessageDrafts.Drafts.ReadMessageDraft` | apps/web/src/messageDrafts.ts:126-134 | answers the text under the key after a load |
| `MessageDrafts.Drafts.FlushMessageDrafts` | apps/web/src/messageDrafts.ts:110-124 | writes only what another session would load exactly as this one, at any later time, and never when storage refuses; the timer is off |
| `MessageDrafts.Drafts.ClearMessageDraftIfUnchanged` | apps/web/src/messageDrafts.ts:162-174 | removes the draft exactly if it still is the text sent, and then writes at once if storage takes it, with the timer off; otherwise nothing but a load happens |
| `StreamPreview.ResizeKeepsAnchor` | apps/web/src/streamPreviewLayout.ts:20-37 | a resized frame, laid out again, is inside the bounds with the opposite corner where it was and its width between 240, or all there is, and all there is |
| `StreamPreview.FrameOfPosition` | apps/web/src/streamPreviewLayout.ts:9-18 | laying out a frame at its own position gives it back |
| `StreamPreview.PositionOfFrame` | apps/web/src/streamPreviewLayout.ts:39-46 | the position of a laid out frame is the one asked for, clamped, and the frame is inside the bounds |
| `StreamPreview.DragByNothing` | apps/web/src/streamPreviewLayout.ts:20-37 | a drag by nothing changes nothing unless the frame is below the least width |
| `DmPaging.PagesCoverEverything` | apps/server/src/routes/dm.rs:788-832 | asking before the oldest id again and again yields every message exactly once in order, with any limits and newer messages arriving |
| `DmPaging.PagesAreContiguous` | apps/server/src/routes/dm.rs:796-829 | after any number of pages the client holds exactly a suffix of the log |
| `DmPaging.NextPage` | apps/server/src/routes/dm.rs:797-812 | a page joins on to what the client has |
| `DmPaging.EmptyPageMeans` | apps/server/src/routes/dm.rs:797-812 | a page is empty exactly at the end or when the message to continue from is gone |
| `DmHistory.MissingExactly` | apps/web/src/pages/HomePage.tsx:568-596 | while messages are sent and deleted: when the client says that there is nothing older, a message still stored is missing exactly if the client continued from a deleted message that stands after it |
| `DmHistory.NothingDeleted` | apps/web/src/pages/HomePage.tsx:568-596 | where nothing is deleted it then holds the whole log, each message once and in order |
| `DmHistory.HeldInOrder` | apps/web/src/pages/HomePage.tsx:579-584 | at every turn it holds messages that were sent, each once and in order |
| `DmHistory.ClientStops` | apps/web/src/pages/HomePage.tsx:585-585 | in full pages it fetches no more messages than there have been |
| `DmHistory.FirstMissed` | apps/web/src/pages/HomePage.tsx:1250-1273 | of any 51 messages the first is missed if the oldest one loaded is deleted unnoticed |
| `LikeEscape.EscapeIsOnePass` | apps/server/src/routes/dm.rs:32-37 | the three global replacements equal one escape per character |
| `LikeEscape.SearchIsExact` | apps/server/src/routes/dm.rs:1351-1357 | the search pattern matches exactly the texts that contain the term |
| `LikeEscape.SearchIgnoresCase` | apps/server/src/routes/dm.rs:1351-1357 | the same in any case |

## Left out

- HTTP, JSON, WebSocket delivery, Redis, rate limits, SMTP, Google sign-in, Turnstile, audit entries and
  voice revocation: input and output around the transactions.
- Permission bits, channel role overrides and role management: a caller's permissions are arbitrary.
- ChannelNames.ValidateName: an alphabet lowers character by character; a `LOWER` that changes a name's length
  or looks at neighbouring characters is not modelled.
- ChannelTables.Tables.DeleteCategory: between two alternatives at one position the database picks by name;
  here it may pick either. The lookups outside the transaction and the transaction itself are one step.
- ChannelSafety.NonOwnersNeverChangeOverrides: calls one after the other; `ChannelRaces` has those that
  overlap. The backfill is left out of the handlers: it writes nothing while the invariant holds.
- ChannelRaces.RacesKeepExactly: a check is one step and so is a write. Reorders are one step, since all they
  write is positions. The owner's override calls are one step, since a foreign key refuses a row for a category
  that is gone. After the tables have broken the backfill would add rows again; such runs are not followed.
- Category listings, channel overrides and the audit of renames: reads, or settled by one branch.
- AccountTokens.LinksNeverOutliveSessions: the handlers are their statements in the order of the code, not
  methods, because they interleave. The unique key on a user's link only makes fewer runs possible and is not
  used. Expiry is a choice of the step. Google linking and account deletion are not steps.
- DmSend.SendIsIdempotent: reactions, read marks and attachment hydration after the insert are left out.
- DmPrivacy.ClosedHoldsExactly: the other users of the check (typing, calls, reactions, opening a DM) and
  deleted accounts are left out; a 1:1 channel keeps its two members.
- GroupDeletion.GroupsStayInOrder: removing the user's row and committing are one step: a change between
  them waits for the commit or could as well have come before. Choosing the new owners and deleting empty
  groups are one step too.
- ServerHandover.GoesToTheFirst: choosing a successor and writing it are one step; a successor being deleted
  at that moment makes the write wait and fail, which is the step `Fail`. Creating the placeholder account is
  a step of its own. Other rows of a deleted account are left out.
- Uploads.NoFileIsLeftOver: deletions in the clean-up and of queued files succeed, as the code hopes and
  logs otherwise; a request that is dropped without cleaning up is not modelled. One user's rows: users
  share no row, lock or counter. A release is one step; whether an upload is in use is left open.
- UploadRequest.Account.UploadAttachments: checking, scanning and re-encoding a file is an answer it comes with.
- DmCache: loading a conversation once at a time, since promises are not modelled.
- MessageMerge.MergedWindow: messages deleted from the log while cached are not modelled; the window and the
  page are of one log.
- MessageDrafts.PruneLater: keys that look like array indexes, which JavaScript moves to the front of an
  object, are not modelled; the client never writes one.
- MessageDrafts.Drafts.SaveMessageDraft: timers and page events decide when a flush runs, and are left out.
- StreamPreview.ResizeKeepsAnchor: rounding of floating-point numbers is left out.
- DmPaging.PagesCoverEverything: runs without deletions, with any limits; `DmHistory` has deletions, with the
  client's own page size. What a failed request or a reopened conversation does is left out there.
- LikeEscape.SearchIgnoresCase: any folding of single characters that keeps the three special ones; foldings
  that change a string's length are not modelled.
- Message pins, reactions, unread counts, data export, avatars, themes, audio and other user interface code.
