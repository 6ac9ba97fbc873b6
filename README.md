# nameless* — a verified model of the bot's core rules

This project models, in Dafny, the parts of the nameless* Discord bot that
hold real rules, and proves properties of that model.

- **Cross-channel relay ("crossover").** Modules `CrossoverTables` and
  `Crossover` cover this part. A channel is *published* as a room. Another
  channel *connects* to the room by its code, which stores two directed
  edges. A new message in a connected channel is *relayed*: one clone per
  live destination and one mapping row `(connection, origin, clone)` per
  clone. Editing or deleting the origin message reaches the clones through
  those mappings. The database tables are the `seq` fields of class
  `Crossover.Store`. What the bot can see and post on the chat platform is
  class `Crossover.Discord`, which holds a directory of guilds and channels,
  the posted clones and a message-id counter. The command group
  `Crossover.CrossOverCommand` updates both.
- **Paginated menu** (`ViewMenu`). A page list and a cursor that the
  next/previous buttons move with wrap-around.
- **SponsorBlock settings** (`SponsorBlock`). The four category bit flags,
  the settings record decoded from them, the dropdown values, and the
  settings loop that XORs a flag into the guild record and flips the text
  of one embed field.
- **Track picker** (`TrackDropdown`). The option list: "Nope" first, then
  at most 25 tracks. At most 10 values can be selected.
- **Music commands** (`Music`). Artist names, the track list split into
  pages of at most 2048 characters, picking tracks from search results,
  queue insertion and the start of an idle player (`play`), `remove`,
  `volume` and the integer branch of `seek`.
- **Blacklist gate** (`CommandTree`). The owner exemption, the guild and
  user lists, and the order of the two rejections.
- **Welcome and goodbye messages** (`Greetings`). The three gates and the
  chain of placeholder replacements, with Python's `str.replace` written out.

`Decimal` models Python's `str(n)` and `int(s)` on digit strings. It is
used wherever option values are numbers written as text. `Wrappers` holds
`Option`.

The relay's code behaves as follows; the model follows it except where a bullet says otherwise:

- `connect` checks "already connected" before "self-connect". A stored
  self-loop would therefore be reported as AlreadyConnected. Valid tables
  never hold one, so in practice self-connection is always refused as such.
- `connect` always stores both edges, this-to-that and then that-to-this.
- The edit and delete handlers do not skip a clone that has gone. Fetching
  it raises NotFound, and only the delete call itself is guarded. The model
  records this behaviour in `CrossoverTables.FetchClonesAsWritten`, and its
  handlers use the corrected fetch that skips such a clone (see Findings).
- Relaying has no per-destination error handling. Only destinations whose
  guild or channel cannot be resolved, or whose channel is not a text
  channel, are skipped.
- Relaying and the later edit or delete meet: right after a message is
  relayed to N destinations, its edit or delete reaches exactly the N
  clones posted, and even the unguarded fetch finds them all
  (`Crossover.RelayThenReach`). A message that was never relayed reaches
  nothing (`Crossover.UnrelayedReachesNothing`).
- `connect` finds the room's channel with `fetch_channel`, which finds
  threads, but the relay looks destinations up with the guild's
  `get_channel`, which does not. A connection into a thread is therefore
  stored but never relayed to (`CrossoverTables.ThreadTargetNeverRelayed`).

## Model

| member | source | states |
|---|---|---|
| CrossoverTables.Lookup | nameless/command/crossover.py:31-40 | a channel lookup succeeds exactly when both its guild and its channel are known |
| CrossoverTables.FindRoom | nameless/command/crossover.py:210-212 | the room found for a channel is in the table and anchored there; none is found exactly when no room row has that channel |
| CrossoverTables.FindRoomByCode | nameless/command/crossover.py:232-234 | the room found for a code is in the table with that code; none exactly when no row has it |
| CrossoverTables.Publish | nameless/command/crossover.py:210-219 | an existing room for the channel is reported unchanged; otherwise exactly one row with a fresh code is appended and that code is reported |
| CrossoverTables.PublishFindsReportedRoom | nameless/command/crossover.py:210-219 | after publishing, the lookup for the channel finds exactly the room whose code was reported |
| CrossoverTables.PublishIdempotent | nameless/command/crossover.py:210-219 | publishing the same channel again reports the same code and adds no room row |
| CrossoverTables.PublishKeepsRoomsValid | nameless/command/crossover.py:214-217 | publishing keeps one room per channel and unique codes, and leaves existing rows as they were |
| CrossoverTables.PublishKeepsTablesValid | nameless/command/crossover.py:214-217 | publishing keeps every table invariant; existing edges still name existing rooms |
| CrossoverTables.HasEdge | nameless/command/crossover.py:99-106 | true exactly when a row with that source and target exists |
| CrossoverTables.IsConnected | nameless/command/crossover.py:91-117 | true exactly when an edge exists in either direction between the two channels |
| CrossoverTables.IsConnectedSymmetric | nameless/command/crossover.py:91-117 | swapping the two channels does not change the answer |
| CrossoverTables.ConnectDecision | nameless/command/crossover.py:232-267 | linking happens exactly when the room exists, both channels are text or thread, the room's channel resolves, the two are not connected and differ; RoomNotFound exactly when the code is unknown |
| CrossoverTables.LinkConnects | nameless/command/crossover.py:272-292 | after the two rows are appended, both directed edges exist and the channels count as connected in both argument orders |
| CrossoverTables.LinkKeepsTablesValid | nameless/command/crossover.py:272-292 | the two new rows keep the tables valid: fresh ids, no self-loop, no duplicate edge, an existing room |
| CrossoverTables.SelfConnectRejected | nameless/command/crossover.py:265-267 | with valid tables, connecting a channel to its own room is refused as SelfConnect |
| CrossoverTables.AlreadyConnectedCheckedFirst | nameless/command/crossover.py:259-267 | the already-connected check runs first: a stored self-loop yields AlreadyConnected |
| CrossoverTables.DuplicateDetectedBothWays | nameless/command/crossover.py:259-263 | with an edge A to B stored, B connecting to A's room and A connecting to B's room are both refused as AlreadyConnected |
| CrossoverTables.Destinations | nameless/command/crossover.py:21-45 | never more destinations than connections |
| CrossoverTables.DestinationsMembers | nameless/command/crossover.py:21-45 | a connection is a destination exactly when it leaves the channel and the guild's channel lookup finds its target as a text channel |
| CrossoverTables.ThreadTargetNeverRelayed | nameless/command/crossover.py:31-43 | a connection into a thread, which `connect` accepts, is never a relay destination |
| CrossoverTables.DestinationsAppend | nameless/command/crossover.py:25-45 | destination resolution keeps table order: it distributes over concatenation |
| CrossoverTables.SkipsVanishedDestination | nameless/command/crossover.py:31-40 | an edge whose target has gone is skipped silently and the others are kept in order |
| CrossoverTables.FirstClone | nameless/command/crossover.py:81-83 | a clone id is found exactly when a mapping for the connection and origin exists, and it is the clone of the first such mapping |
| CrossoverTables.CloneLookup | nameless/command/crossover.py:47-89 | every pair is an outbound edge whose target the guild's lookup finds as a text channel, with the clone of its first mapping; every such edge with a mapping appears |
| CrossoverTables.FetchClonesAsWritten | nameless/command/crossover.py:85-87 | the fetch loop completes exactly when every looked-up clone can still be fetched |
| CrossoverTables.FetchClones | nameless/command/crossover.py:85-87 | the clones reached are exactly the looked-up ones that still exist in their channel |
| CrossoverTables.FetchAgreesWhenAllFound | nameless/command/crossover.py:85-87 | when every clone exists, the handlers' fetch and the skipping fetch agree |
| CrossoverTables.VanishedCloneBlocksFanOut | nameless/command/crossover.py:85-192 | one clone deleted by hand stops the handlers from reaching a later clone that still exists |
| CrossoverTables.EditClones | nameless/command/crossover.py:168-174 | the edited clones are the same messages as before |
| CrossoverTables.EditClonesEffect | nameless/command/crossover.py:168-174 | editing changes only the listed clones, and of those only the description; no clone appears or disappears |
| CrossoverTables.DistinctRooms | nameless/command/crossover.py:309-317 | the codes listed are exactly the rooms of edges touching the channel, each once |
| CrossoverTables.ListRooms | nameless/command/crossover.py:309-325 | `list` returns every room the channel takes part in as source or target, without duplicates |
| Crossover.RelayMappingsShape | nameless/command/crossover.py:148-154 | relaying records one mapping per destination, in order, each naming its connection, the origin and its own clone |
| Crossover.RelayPostsShape | nameless/command/crossover.py:131-146 | relaying posts exactly one clone per destination under consecutive fresh ids, each carrying the message text to that destination |
| Crossover.RelayThenReach | nameless/command/crossover.py:120-192 | after relaying a message no earlier mapping mentions, over connections with unique ids, an edit or delete of it reaches exactly the clone ids the relay posted, n0 to n0 + N - 1, and the handlers' unguarded fetch succeeds with the same list |
| Crossover.UnrelayedReachesNothing | nameless/command/crossover.py:47-59 | an origin with no mapping row has no looked-up clones, so an edit or delete of it does nothing |
| Crossover.FirstCloneOfDestination | nameless/command/crossover.py:76-78 | after the relay, the first mapping of the k-th destination for the message names clone n0 + k |
| CrossoverTables.DestinationsUniqueIds | nameless/command/crossover.py:21-45 | the destinations of a table with unique connection ids have unique ids |
| Crossover.RelayKeepsMappingsValid | nameless/command/crossover.py:148-154 | every mapping a relay records names an existing connection |
| Crossover.Store.UpsertGuild | nameless/custom/crud.py:27-29 | the guild row exists afterwards and nothing else changes |
| Crossover.Store.CreateRoom | nameless/command/crossover.py:215-217 | appends one room row under a fresh code |
| Crossover.Store.CreateConnection | nameless/command/crossover.py:272-280 | appends one connection row under a fresh id |
| Crossover.Store.CreateMapping | nameless/command/crossover.py:148-154 | appends one mapping row |
| Crossover.Discord.Send | nameless/command/crossover.py:142-146 | the posted embed gets a fresh id that no earlier message has |
| Crossover.Discord.Edit | nameless/command/crossover.py:171-174 | replaces the embed of one posted message |
| Crossover.Discord.Delete | nameless/command/crossover.py:191-192 | removes the message; reports whether it still existed (NotFound otherwise) |
| Crossover.CrossOverCommand.Crossover | nameless/command/crossover.py:197-219 | outside a text channel or thread nothing changes; otherwise the rooms become those of publishing the channel, the reported code is the published one, and the guild row exists |
| Crossover.CrossOverCommand.Connect | nameless/command/crossover.py:224-298 | the outcome is the decision taken over the tables; on success exactly the two edge rows are appended and both guild rows exist; otherwise no table changes; the tables stay valid |
| Crossover.CrossOverCommand.Link | nameless/command/crossover.py:269-292 | upserts both guilds and appends this-to-that then that-to-this, keeping the tables valid |
| Crossover.CrossOverCommand.OnMessage | nameless/command/crossover.py:120-154 | the bot's own messages and messages outside text channels and threads change nothing; otherwise one clone is posted and one mapping appended per destination, and nothing else changes |
| Crossover.CrossOverCommand.Relay | nameless/command/crossover.py:131-154 | the fan-out loop posts the destinations' clones and records their mappings in destination order |
| Crossover.CrossOverCommand.OnMessageEdit | nameless/command/crossover.py:157-174 | ignored messages change nothing; otherwise every reachable clone gets the new text as its description |
| Crossover.CrossOverCommand.EditEach | nameless/command/crossover.py:168-174 | the edit loop leaves the clones as the edit function describes |
| Crossover.CrossOverCommand.OnMessageDelete | nameless/command/crossover.py:177-192 | ignored messages change nothing; otherwise exactly the reachable clones are removed |
| Crossover.CrossOverCommand.DeleteEach | nameless/command/crossover.py:188-192 | the delete loop removes exactly the listed clones, a NotFound answer being ignored |
| ViewMenu.NextIndex | nameless/custom/ui/view/view_menu.py:44-48 | from an in-range cursor, `next_page` moves one page forward modulo the page count |
| ViewMenu.PreviousIndex | nameless/custom/ui/view/view_menu.py:52-56 | from an in-range cursor, `previous_page` moves one page back modulo the page count; from page 0 it goes to the last page |
| ViewMenu.NextPreviousInverse | nameless/custom/ui/view/view_menu.py:44-57 | next then previous, and previous then next, restore an in-range cursor |
| ViewMenu.WalkStaysInRange | nameless/custom/ui/view/view_menu.py:44-57 | with at least one page, any sequence of presses keeps the cursor in range |
| ViewMenu.Menu.constructor | nameless/custom/ui/view/view_menu.py:17-22 | a new menu has no pages and its cursor at 0 |
| ViewMenu.Menu.AddPages | nameless/custom/ui/view/view_menu.py:35-37 | the new pages are appended in order; the cursor is untouched |
| ViewMenu.Menu.NextPage | nameless/custom/ui/view/view_menu.py:43-49 | the cursor moves as NextIndex says, then the page under it is shown; IndexError exactly when Python indexing fails |
| ViewMenu.Menu.PreviousPage | nameless/custom/ui/view/view_menu.py:51-57 | the cursor moves as PreviousIndex says, then the page under it is shown; IndexError exactly when Python indexing fails |
| ViewMenu.Menu.GoToFirstPage | nameless/custom/ui/view/view_menu.py:59-61 | shows page 0 and leaves the cursor alone; IndexError on an empty menu |
| ViewMenu.Menu.GoToLastPage | nameless/custom/ui/view/view_menu.py:63-65 | shows the last page and leaves the cursor alone; IndexError on an empty menu |
| ViewMenu.Menu.GoToPage | nameless/custom/ui/view/view_menu.py:67-70 | sets the cursor to the argument without a bounds check, then sends that page by Python indexing |
| ViewMenu.Menu.Start | nameless/custom/ui/view/view_menu.py:78-81 | sends page 0; IndexError on an empty menu |
| SponsorBlock.FlagsAreDistinctBits | nameless/custom/player/settings/sponsorblock_settings.py:16-20 | the four flags are bits 0 to 3, pairwise disjoint |
| SponsorBlock.Decode | nameless/custom/player/settings/sponsorblock_settings.py:44-54 | the settings record: the flags kept, and one boolean per category read from its bit |
| SponsorBlock.Encode | nameless/custom/player/settings/sponsorblock_settings.py:44-54 | the flags with exactly the given categories on |
| SponsorBlock.DecodeEncode | nameless/custom/player/settings/sponsorblock_settings.py:44-54 | the settings record keeps the flags, and each boolean is true exactly when its bit is set |
| SponsorBlock.EncodeDecode | nameless/custom/player/settings/sponsorblock_settings.py:44-54 | decoding loses only the bits above the four categories |
| SponsorBlock.SelectedFlag | nameless/custom/player/settings/sponsorblock_settings.py:35-36 | a value reads as a number exactly when it is a non-empty string of digits |
| SponsorBlock.OptionValuesRoundTrip | nameless/custom/player/settings/sponsorblock_settings.py:28-36 | every option's value reads back as the flag it was made from |
| SponsorBlock.FlagOf | nameless/custom/player/settings/sponsorblock_settings.py:28-36 | a selected value stands for one of the four flags or for none |
| SponsorBlock.FlagOfOption | nameless/custom/player/settings/sponsorblock_settings.py:28-36 | selecting option k selects flag k |
| SponsorBlock.FieldIndexAsWritten | nameless/custom/player/settings/sponsorblock_settings.py:38-39 | the selected flag shifted right by one |
| SponsorBlock.FieldIndexAsWrittenOverruns | nameless/custom/player/settings/sponsorblock_settings.py:38-39 | the shift maps 1, 2, 4 to fields 0, 1, 2 but maps 8 to 4, past the last field |
| SponsorBlock.FieldIndex | nameless/custom/player/settings/sponsorblock_settings.py:38-39 | the field of a flag is its position among the flags, which is its bit number |
| SponsorBlock.Toggle | nameless/custom/player/settings/sponsorblock_settings.py:128 | the flags XOR the selected flag |
| SponsorBlock.ToggleFlipsOneBit | nameless/custom/player/settings/sponsorblock_settings.py:128 | XOR-ing a flag changes exactly its bit, inverts its state, and a second toggle restores the flags |
| SponsorBlock.ToggleKeepsOtherFlags | nameless/custom/player/settings/sponsorblock_settings.py:128 | toggling one category leaves every other category as it was |
| SponsorBlock.ToggleFlagText | nameless/custom/player/settings/sponsorblock_settings.py:86-87 | "Enable" exactly when the flag is set, "Disable" otherwise |
| SponsorBlock.FlipText | nameless/custom/player/settings/sponsorblock_settings.py:123-127 | "Disabled" exactly from "Enabled", "Enabled" from any other text |
| SponsorBlock.FieldsAsWritten | nameless/custom/player/settings/sponsorblock_settings.py:86-111 | the four field values as `make` writes them, "Enable" or "Disable" |
| SponsorBlock.StepAsWritten | nameless/custom/player/settings/sponsorblock_settings.py:121-128 | one round as written: IndexError (None) when the shifted index is past the fields, else the flag toggled and the field text flipped |
| SponsorBlock.MusicOffTopicRaisesAsWritten | nameless/custom/player/settings/sponsorblock_settings.py:121-128 | selecting "Music Offtopic" always ends the loop with IndexError, before the flag is toggled |
| SponsorBlock.FieldTextDesyncAsWritten | nameless/custom/player/settings/sponsorblock_settings.py:86-128 | with Sponsor on, toggling it clears the bit while its field then reads "Enabled" |
| SponsorBlock.FieldText | nameless/custom/player/settings/sponsorblock_settings.py:86-87 | a field reads "Enabled" exactly when its category is on and "Disabled" otherwise, the two words the flip compares with |
| SponsorBlock.FlipTextFollowsState | nameless/custom/player/settings/sponsorblock_settings.py:123-127 | flipping the text of a state gives the text of the opposite state |
| SponsorBlock.FirstFlipEnablesAsWritten | nameless/custom/player/settings/sponsorblock_settings.py:86-127 | as written, the first flip of any field gives "Enabled", whether the category was on or off |
| SponsorBlock.FieldAfterToggle | nameless/custom/player/settings/sponsorblock_settings.py:121-128 | after a toggle, the toggled category's field shows the flipped text and every other field is unchanged |
| SponsorBlock.Fields | nameless/custom/player/settings/sponsorblock_settings.py:89-111 | four fields, field k reading "Enabled" exactly when category k is on |
| SponsorBlock.Step | nameless/custom/player/settings/sponsorblock_settings.py:121-128 | one corrected round: the flag toggled and the text of its own field flipped |
| SponsorBlock.StepKeepsFieldsInSync | nameless/custom/player/settings/sponsorblock_settings.py:121-128 | after any selection, the fields still show the toggled flags |
| SponsorBlock.SettingsMenu.constructor | nameless/custom/player/settings/sponsorblock_settings.py:89-111 | the embed built from the guild's flags shows them |
| SponsorBlock.SettingsMenu.Select | nameless/custom/player/settings/sponsorblock_settings.py:114-128 | for a value that names a category, one round XORs that flag into the record and the fields keep showing the flags |
| TrackDropdown.Truncate | nameless/custom/player/track_dropdown.py:30-31 | `s[:n]` is the prefix of length min(len(s), n) |
| TrackDropdown.TrackOption | nameless/custom/player/track_dropdown.py:29-33 | the option's value is the index; its caption is exactly "author - title" cut to 100 characters; its description is exactly the uri cut to 100 characters, or "No URI" for a missing or empty uri; both fit 100 characters |
| TrackDropdown.Options | nameless/custom/player/track_dropdown.py:21-35 | "Nope" comes first, then for each of the first 25 tracks, in order, exactly the option TrackOption describes, valued with its index; at most 26 options |
| TrackDropdown.NopeIsNoIndex | nameless/custom/player/track_dropdown.py:21-27 | "Nope" never reads as a track index |
| TrackDropdown.OptionValuesIdentifyTracks | nameless/custom/player/track_dropdown.py:28-34 | option k+1's value reads back as k, a valid track index, and no two options share a value |
| TrackDropdown.SelectedValueInRange | nameless/custom/player/track_dropdown.py:21-35 | every value the picker can return is "Nope" or the index of a track that got an option |
| CommandTree.IsBlacklisted | nameless/custom/command_tree.py:21-40 | an owner is never blacklisted; a true answer comes from the guild list when a guild is given, else from the user list |
| CommandTree.OwnerNeverBlacklisted | nameless/custom/command_tree.py:28-30 | an owner passes whatever the lists contain |
| CommandTree.GuildDecidesAlone | nameless/custom/command_tree.py:32-34 | with a guild given, the answer is guild membership and the user list is not consulted |
| CommandTree.UserDecidesWithoutGuild | nameless/custom/command_tree.py:36-38 | with only a user given, the answer is user membership |
| CommandTree.NobodyIsNotBlacklisted | nameless/custom/command_tree.py:40 | with neither, nothing is blacklisted |
| CommandTree.InteractionCheck | nameless/custom/command_tree.py:42-64 | allowed exactly when neither the user nor the guild is blacklisted; a blacklisted user is reported before a blacklisted guild |
| CommandTree.OwnerInBlacklistedGuildRejected | nameless/custom/command_tree.py:42-64 | the owner exemption does not reach the guild check, which is made without a user |
| Greetings.ReplaceAll | nameless/nameless.py:143-148 | Python's `str.replace`: occurrences taken left to right without overlap |
| Greetings.ReplaceAllWithoutOccurrence | nameless/nameless.py:143-148 | a replacement whose pattern does not occur changes nothing |
| Greetings.ReplaceAllByItself | nameless/nameless.py:143-148 | replacing a pattern by itself changes nothing |
| Greetings.ReplaceAllWhole | nameless/nameless.py:143-148 | a text that is exactly the pattern becomes the replacement |
| Greetings.ReplaceAllConcat | nameless/nameless.py:143-148 | when no occurrence straddles the boundary, replacing in two joined texts replaces in each on its own |
| Greetings.ReplaceAllReplacesOccurrence | nameless/nameless.py:143-148 | every occurrence of a pattern whose first character does not recur is replaced: a + pattern + b becomes the replaced a, the replacement, the replaced b |
| Greetings.ReplaceAllKeepsToken | nameless/nameless.py:143-148 | a different placeholder stays in place between the replaced texts around it |
| Greetings.RenderWelcome | nameless/nameless.py:143-148 | the welcome template with "{guild}", "{name}", "{tag}", then "{@user}" replaced, one after another |
| Greetings.RenderGoodbye | nameless/nameless.py:160-164 | the goodbye template with "{guild}", "{name}", then "{tag}" replaced, one after another |
| Greetings.PlainTemplateUnchanged | nameless/nameless.py:143-148 | a template without placeholders is sent as it is, as welcome and as goodbye |
| Greetings.GoodbyeKeepsMentionPlaceholder | nameless/nameless.py:160-164 | in any goodbye template, every "{@user}" stays literal and the texts around it render on their own |
| Greetings.WelcomeReplacesMention | nameless/nameless.py:143-148 | in any welcome template, every "{@user}" becomes the member's mention and the texts around it render on their own |
| Greetings.GoodbyeReplacesTag | nameless/nameless.py:160-164 | in any goodbye template, every "{tag}" becomes the member's discriminator and the texts around it render on their own |
| Greetings.StepOverShaped | nameless/nameless.py:143-148 | a replacement step over a placeholder or a text without "{" followed by more text replaces that piece exactly when it is the pattern |
| Greetings.RenderWelcomeParts | nameless/nameless.py:143-148 | with no "{" in the literal text and in the guild name, display name and discriminator, the chain of replacements shows every placeholder as its value, as a one-pass substitution would |
| Greetings.RenderGoodbyeParts | nameless/nameless.py:160-164 | the same for a goodbye, whose "{@user}" shows as written |
| Greetings.GuildNameIsRewritten | nameless/nameless.py:143-148 | the replacements are sequential: a guild named "{name}" is rewritten to the member's display name |
| Decimal.NatToString | nameless/custom/player/track_dropdown.py:32 | `str(n)`: a non-empty digit string, one digit exactly for n below 10 |
| Decimal.ParseNat | nameless/command/music.py:345 | `int(s)` on digit strings: a number exactly for a non-empty string of digits |
| Decimal.DigitsValueOfNatToString | nameless/custom/player/track_dropdown.py:32 | the digits of `str(n)` read in base ten give n back |
| Decimal.ParseNatToString | nameless/custom/player/track_dropdown.py:32 | reading back the text of a number gives the number |
| Decimal.NatToStringInjective | nameless/custom/player/track_dropdown.py:32 | distinct numbers have distinct texts, so no two track options share a value |
| Greetings.OnMemberJoin | nameless/nameless.py:134-149 | a welcome is sent exactly when it is enabled, non-empty and its channel resolves, to that channel, with the welcome rendering |
| Greetings.OnMemberRemove | nameless/nameless.py:151-165 | a goodbye is sent under the same three gates on the goodbye settings, with the goodbye rendering |
| Music.RemoveSuffix | nameless/command/music.py:138 | one trailing copy of the suffix is dropped when present, otherwise the text is unchanged |
| Music.ResolveArtistName | nameless/command/music.py:133-138 | "N/A" for an empty name; otherwise the escaped name with at most one trailing " - Topic" removed |
| Music.OnlyOneTopicRemoved | nameless/command/music.py:138 | a name ending in " - Topic" twice keeps one of them |
| Music.TrackLine | nameless/command/music.py:157-162 | a line starts with its number and " - [" and ends with a newline |
| Music.Lines | nameless/command/music.py:157-162 | one line per track, numbered from 1 in list order |
| Music.Feed | nameless/command/music.py:164-172 | one step of the paging loop: close the page and start a new one when the line does not fit in 2048 characters, else append it |
| Music.FeedAll | nameless/command/music.py:157-172 | the paging loop over all lines read so far |
| Music.Paginate | nameless/command/music.py:174-178 | there is always at least one page, even for an empty list |
| Music.FeedAllKeepsText | nameless/command/music.py:157-172 | the paging loop's pages and current text make up all lines read so far, in order |
| Music.FeedAllFits | nameless/command/music.py:164-172 | every page the loop closes, and its current text, is at most 2048 characters or a single line |
| Music.PaginateKeepsText | nameless/command/music.py:157-178 | concatenating the pages gives the concatenation of all lines |
| Music.PaginatePagesFit | nameless/command/music.py:164-178 | every page is at most 2048 characters unless it is a single line longer than that |
| Music.LongFirstLineLeavesEmptyPage | nameless/command/music.py:164-170 | a first line over 2048 characters closes the still empty first page |
| Music.GenerateEmbeds | nameless/command/music.py:140-180 | no pages for an unsupported source; otherwise exactly the pages of the tracks' lines |
| Music.Streamless | nameless/command/music.py:320 | the offered tracks are exactly the results that are not streams |
| Music.Choose | nameless/command/music.py:345 | the tracks at the selected indices, in selection order, every index within the options shown |
| Music.Pick | nameless/command/music.py:313-346 | a single result is returned as it is; a timeout, an empty selection or "Nope" gives nothing |
| Music.PickAsWritten | nameless/command/music.py:313-346 | `pick_track_from_results` as written: the selected indices looked up in the full result list |
| Music.PickReturnsShownTracks | nameless/command/music.py:320-345 | each picked track is the non-stream track shown on the selected option, and at most 10 are picked |
| Music.PickAsWrittenReturnsWrongTrack | nameless/command/music.py:320-345 | with a stream ahead of a song, choosing the song returns the stream |
| Music.InsertionIndex | nameless/command/music.py:403-408 | a position of 0 or less, or past the end, inserts at the end; otherwise at the position |
| Music.Reversed | nameless/command/music.py:396-397 | the list in reverse order |
| Music.RemoveFirst | nameless/command/music.py:528 | the queue with the first item equal to the given one dropped |
| Music.RemoveFirstAt | nameless/command/music.py:528 | removing the item at a position by value drops that position when no earlier item equals it |
| Music.RemoveFirstDropsOne | nameless/command/music.py:528 | removing by value drops exactly one copy of the item |
| Music.RemoveDropsEarlierDuplicate | nameless/command/music.py:528 | with a track queued twice, removing the later position drops the earlier copy |
| Music.RemoveDropsOneCopy | nameless/command/music.py:524-528 | an accepted removal shortens the queue by one and drops one copy of the item at index-1 |
| Music.InsertBlock | nameless/command/music.py:403-408 | the old queue before the index, the block, then the rest of the old queue |
| Music.Player.Enqueue | nameless/command/music.py:403-408 | the tracks go in as one block at the insertion index; the playing track is untouched |
| Music.Player.StartIfIdle | nameless/command/music.py:410-411 | an idle player takes the head off the queue and plays it; a busy one changes nothing |
| Music.Player.Play | nameless/command/music.py:365-411 | nothing for an empty search or pick; otherwise the chosen tracks, reversed when asked, go in as one block at the insertion index, the queue keeps its order, and an idle player then starts the head of the new queue |
| Music.Player.Remove | nameless/command/music.py:516-528 | refused exactly on an empty queue or an index outside 1..len; otherwise the item at index-1 is removed by value |
| Music.Player.SetVolume | nameless/command/music.py:547-555 | accepted exactly for 0 to 200, the volume changes only then |
| Music.SeekPosition | nameless/command/music.py:600-602 | the integer branch of `seek`: the position in milliseconds |
| Music.SeekPositionDecomposes | nameless/command/music.py:600-602 | for components in their clock ranges, the millisecond position reads back as hours, minutes, seconds and milliseconds |

## Left out

- Discord and database transport. Every send, edit, fetch and database call succeeds in the model. Transport exceptions, rate limits and retries are not modelled.
- Concurrency. The handlers are `async` and may interleave. Each command runs as one atomic step here, so duplicate-connect races are not modelled.
- Acknowledgement and error messages sent to the user ("Linking success!", "Room code does not exist!" and similar). They become outcome values.
- Attachments, stickers, avatars and icons of relayed messages. A clone is its description, author line and footer.
- `assert` statements on gateway objects, and direct messages. The model takes every message to come from a guild.
- Room codes are text typed by the user. They are modelled as the room's numeric id.
- Mapping rows are never deleted when clones are deleted. The model keeps them, as the code does.
- `escape_markdown` is a library function. It is a parameter `escape` of `ResolveArtistName`, `TrackLine` and `Lines`.
- Python's `int()` also accepts signs, spaces and underscores. `ParseNat` reads plain digit strings, which is all that option values ever hold.
- Music.SeekPosition: the percent branch of `seek` uses floating point and is not modelled. The "no track" and "not seekable" gates are not modelled either.
- `seek`, `volume` and playback themselves (`player.seek`, `set_volume`, the audio of `player.play`) belong to the audio node. Only the values passed to them are modelled. Starting an idle player is modelled as taking the head of the queue into `current`.
- The wavelink queue is a plain sequence of tracks. `put_wait` appends and `remove` drops the first equal item.
- Music.Pick and Music.PickAsWritten: waiting for the user and the timeout are a `PickResponse` parameter. The "unexpected dropdown type" branch cannot happen with the view the command builds and is not modelled.
- The embeds built from the pages, and the paginated display started by `play`, are not modelled beyond their descriptions.
- SponsorBlock.SettingsMenu.Select models the corrected loop (see Findings). It requires the value to name one of the four categories, which every option value does (`SponsorBlock.FlagOfOption`). The flags are never written back to the database, and the view's wait and timeout are not modelled.
- Crossover.CrossOverCommand.OnMessageEdit uses the corrected `CrossoverTables.FetchClones` (see Findings). With two clones of which the first was deleted by hand, the source raises NotFound and edits nothing, while the model edits the second clone.
- Crossover.CrossOverCommand.OnMessageDelete uses the corrected `CrossoverTables.FetchClones` (see Findings). With two clones of which the first was deleted by hand, the source raises NotFound and deletes nothing, while the model deletes the second clone.
- Music.Player.Play uses the corrected `Music.Pick` (see Findings). On results [stream S, song A] with option "0" selected, the source queues S while the model queues A.
- Music.Player.Play takes the bot to be connected to a voice channel: the model's player always exists. `play` carries no voice-channel gate (music.py:353-364), unlike `remove` and `volume`. When the bot is not connected, `player` is None (music.py:371). The source then still runs the search, the pick and the paginated embed task, and raises AttributeError at `player.queue` (music.py:406-408), so nothing is queued. The model queues the tracks and answers Added.
- SponsorBlock.SettingsMenu.constructor builds fields reading "Enabled"/"Disabled", the corrected words (see Findings). `make` writes "Enable"/"Disable", so with flags 1 the source's Sponsor field reads "Enable" where the model's reads "Enabled"; `SponsorBlock.FieldsAsWritten` records the source's words.
- Greetings.RenderWelcomeParts and Greetings.RenderGoodbyeParts require the literal text and the member's values to hold no "{". A value holding a placeholder is rewritten by the later steps of the chain (`Greetings.GuildNameIsRewritten`), so no one-pass description holds for it.
- ViewMenu.NextIndex and ViewMenu.PreviousIndex: their contracts cover an in-range cursor. For other cursors, which `go_to_page` can produce, the methods' contracts state the result through these functions.
- `get_or_create_guild_record` in the welcome and goodbye handlers becomes the `GuildRecord` argument. Channel resolution becomes a set of known channels.
- The rendering of the `list` embed is not modelled. Only the room codes it shows are.

## Findings

| source | as written | input that shows it | evidently intended | confidence | as-written member | corrected member |
|---|---|---|---|---|---|---|
| nameless/command/music.py:320-345 | the options are numbered over the results without streams, but the selected number indexes the full result list | results [stream S, song A]; the user selects A, whose option value is "0" | return the track shown on the selected option | high, not executed | Music.PickAsWrittenReturnsWrongTrack | Music.Pick |
| nameless/custom/player/settings/sponsorblock_settings.py:38-39 | the field index is the flag shifted right by one | selecting "Music Offtopic" (flag 8) gives field 4 of 4 fields: IndexError, and the flag is never toggled | the flag's bit number, 0 to 3 | high, not executed | SponsorBlock.MusicOffTopicRaisesAsWritten | SponsorBlock.FieldIndex |
| nameless/custom/player/settings/sponsorblock_settings.py:86-127 | fields start as "Enable"/"Disable", but the flip compares with "Enabled" | flags 1, select Sponsor: the bit is cleared and the field shows "Enabled" | one pair of words, so that the field follows the flag | high, not executed | SponsorBlock.FieldTextDesyncAsWritten | SponsorBlock.FieldText |
| nameless/command/crossover.py:85-192 | `fetch_message` runs outside the NotFound guard, which covers only `delete` | two clones, the first deleted by hand: fetching it raises and the second clone is never edited or deleted | skip clones that have gone and carry on | medium, not executed | CrossoverTables.VanishedCloneBlocksFanOut | CrossoverTables.FetchClones |

The corrected members are the ones the rest of the model uses:
`Music.Player.Play` picks with `Music.Pick`; `SponsorBlock.SettingsMenu.Select` uses `SponsorBlock.FieldIndex` and `SponsorBlock.Fields`; the edit and delete handlers reach clones through `CrossoverTables.FetchClones`.
