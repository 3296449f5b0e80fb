# MoneBot core, modelled in Dafny

This project models the core of MoneBot, a Discord bot, as pure Dafny
functions over immutable maps, sets and sequences. The model covers:

- **Global chat** (`cogs/global.py`): a cross-guild relay.
  - The registry of relay channels (`global_chat_settings`, one row per guild).
  - A per-guild 10-second cooldown on relayed messages.
  - The payload built for each message: body truncation, avatar fallback, author and footer lines.
  - The fan-out loop. It skips the source room and heals itself by deleting rows whose channel or webhook is gone.
  - The `globalchat join` and `globalchat leave` commands.
- **Bot state in `main.py`**:
  - the `bot_joined_guilds` table, reconciled with the live guild list on start-up and kept current by the guild join and remove events;
  - the web API's list of joined guilds;
  - the `server_settings` codec: decoding on read, defaults, merging an update, and encoding on write;
  - the welcome message sent when a member joins;
  - the owner-only command gate.
- **`setup`** (`cogs/setup.py`): inserts a guild's default settings only when it has none.
- **Member verification** (`verify.py`):
  - the role mapping command;
  - issuing a five-character code;
  - checking and consuming a submitted code;
  - the per-user "enter code" button.

The platform calls whose answers steer a handler (Discord, the webhook
transport, and some SQLite writes) are replaced by explicit inputs saying what
that call answered. Examples are the per-destination `Delivery` of the
fan-out, the `WebhookCreation` of join, the registry write of join and leave,
and the `GrantOutcome` and `TimeoutOutcome` of code submission. Other database
reads and writes are modelled as always succeeding; "## Left out" lists them. Time is an
integer clock passed in by the caller. Randomness is the list of alphabet
positions drawn. The order in which SQLite returns the relay rows is a
parameter, constrained to list each enabled row exactly once.

Modules, one per file:

| file | module | models |
|---|---|---|
| common.dfy | `Common` | `Option`, id types |
| text.dfy | `Text` | `str(int)` / `int(str)` on ids, Python `strip`, `upper`, `replace` |
| registry.dfy | `Registry` | `global_chat_settings` |
| cooldown.dfy | `Cooldown` | `user_last_message_timegc` and the 10-second gate |
| projection.dfy | `Projection` | the embed/webhook payload |
| fanout.dfy | `FanOut` | the send loop of `send_global_chat` |
| relay.dfy | `Relay` | `on_message_global` end to end |
| lifecycle.dfy | `Lifecycle` | `globalchat join` / `leave` |
| jsonlist.dfy | `JsonList` | `json.dumps` / `json.loads` on lists of strings |
| settings.dfy | `ServerSettings` | `server_settings` read, merge, write |
| setup.dfy | `Setup` | `setup_server` |
| guildsync.dfy | `GuildSync` | `bot_joined_guilds` |
| welcome.dfy | `Welcome` | `on_member_join` |
| owners.dfy | `Owners` | `is_owner_user` |
| verification.dfy | `Verification` | `verify.py` |

Three points of the relay's behaviour worth stating precisely:

- **Pruning.** Self-healing runs `DELETE ... WHERE channel_id = ?`, which removes every row carrying the dead channel id, not only the row that was being sent to. `FanOut` deletes by channel.
- **Pausing.** The code pauses after every non-source destination, whatever the send answered. This includes a channel that could not be resolved.
- **Last-message time.** The cooldown stores the time only for accepted triggers. A guild never seen reads as time 0.

## Model

| member | source | states |
|---|---|---|
| Registry.Upsert | cogs/global.py:167-175 | After join's upsert, the guild's row is exactly (channel, webhook, enabled). Any earlier row of that guild is replaced. Every other guild's row is unchanged. |
| Registry.DeleteByChannel | cogs/global.py:124-131 | Deleting by channel keeps exactly the rows whose channel differs, with their contents intact. |
| Registry.DeleteByChannelIdempotent | cogs/global.py:136-143 | Repeating the delete-by-channel is a no-op. |
| Registry.DeleteByKey | cogs/global.py:213-221 | Leave's delete reports a deletion iff a row matched (guild, channel). It removes only that guild's row. |
| Registry.LookupWebhook | cogs/global.py:200-210 | Leave's lookup finds a webhook iff the (guild, channel) row exists, and returns that row's URL. |
| Registry.Snapshot | cogs/global.py:78-87 | The broadcast's snapshot has one row per listed guild, carrying that guild's channel and webhook. |
| Registry.SnapshotCoversEnabled | cogs/global.py:82-84 | The snapshot holds a row for exactly the enabled guilds, and no guild twice. |
| Cooldown.TryAcquire | cogs/global.py:67-72 | A trigger is accepted iff at least 10 seconds have passed since the guild's last accepted one (0 when none). Acceptance stamps the guild with the current time. A rejection leaves the state unchanged. Other guilds are never affected. |
| Cooldown.Run | cogs/global.py:67-72 | Over a run of triggers, the accepted ones are a selection of the arrivals, kept in arrival order. |
| Cooldown.AcceptedThenNext | cogs/global.py:68-72 | Right after an accepted trigger at t1, the next trigger of the same guild is accepted iff it comes 10 or more seconds later. |
| Cooldown.AcceptedAreSpaced | cogs/global.py:67-72 | For any sequence of clock readings, including a wall clock set back, any two accepted triggers of one guild are at least 10 seconds apart, in arrival order. Each acceptance is 10 seconds past the stamp it replaces. |
| Cooldown.AcceptedAfterStamp | cogs/global.py:68-72 | Every accepted trigger after a stamp at t0 comes at least 10 seconds after t0, whatever the clock readings. |
| Cooldown.ClockSetBack | cogs/global.py:68-72 | Readings 100, 95 and 110 from one guild: the first and the third are accepted, and the reading 95 is rejected. |
| Projection.Truncate | cogs/global.py:90-93 | A body of at most 2048 characters is kept. A longer one becomes its first 2045 characters plus "...", exactly 2048 long. |
| Projection.Project | cogs/global.py:91-103 | The description is the truncated body, and equals the body iff the body fits. The avatar is the custom one when set, else the default one, and is never empty when neither URL is. The username is the display name. The author line is "name (id)", and its id parses back to the author's id. The footer is "From guild (ID: id)", and its id parses back to the source guild's id. |
| FanOut.Broadcast | cogs/global.py:105-145 | The send loop never adds or alters a registry row; every row it leaves was in the table before, unchanged. Its effects are sends, prunes and pauses only, never a stamp or a reaction. |
| FanOut.BroadcastRegistry | cogs/global.py:105-145 | After the loop, the registry is the one before it minus every row whose channel a non-source destination reported gone: either the channel could not be resolved or the webhook answered NotFound. |
| FanOut.BroadcastSends | cogs/global.py:110-123 | The webhook sends are exactly the non-source destinations whose channel resolved, in snapshot order. No send goes to the source room. |
| FanOut.BroadcastPauses | cogs/global.py:105-145 | There is exactly one pause per non-source destination, whatever each destination answered. |
| FanOut.DeadPruned | cogs/global.py:124-143 | A destination reported gone leaves no row with its channel behind. Deleting that channel again changes nothing. |
| FanOut.LiveRetained | cogs/global.py:132-135 | A row is kept unchanged when no non-source destination with its channel was reported gone. This covers Forbidden and other errors. |
| FanOut.NoDeadNoChange | cogs/global.py:132-135 | When every answer is success, Forbidden or another error, the registry is unchanged. |
| Relay.OnMessage | cogs/global.py:45-75 | Bots, direct messages and channels that are not enabled relay channels are ignored, and so are messages still inside the cooldown; either way nothing changes and nothing happens. Otherwise the first effect is the guild's stamp and the last is the reaction, with neither in between. The cooldown records the current time and the payload is the projection. The sends are exactly the fan-out's attempted destinations, in snapshot order and never the source. There is one pause per non-source destination. The registry keeps exactly the rows whose channel no destination reported gone. |
| Relay.Relayed | cogs/global.py:72-75 | The fan-out framed by the stamp and the reaction sends to the attempted destinations, pauses once per destination, and leaves the surviving rows. |
| Relay.RegistryOnlyShrinks | cogs/global.py:45-145 | Handling a message never adds or alters a registry row. It can only remove rows. |
| Relay.BasicRelay | cogs/global.py:45-145 | With two rooms, a message from the first is sent to the second only. The guild is stamped and the message gets its reaction. |
| Relay.HealedRelaysToNobody | cogs/global.py:105-112 | With only the source room left, a later message is stamped and reacted to but sent nowhere. |
| Relay.DeadEndpointSelfHeals | cogs/global.py:124-131 | After a NotFound answer from the second room, that room's row is gone and the first room's row remains. |
| Relay.CooldownSuppression | cogs/global.py:67-71 | Triggers at 1000, 1005 and 1011 from one guild: the first and the third are accepted. |
| Lifecycle.JoinAsWritten | cogs/global.py:150-188 | Join as written. A failed webhook creation changes nothing. A successful upsert always leaves the row in place. The reply is success iff creation, upsert and the success edit all succeed, and then nothing is deleted. When any of those later steps fails, the fresh webhook is deleted iff the error edit succeeds. |
| Lifecycle.OrphanedRowAsWritten | cogs/global.py:177-188 | Counterexample: upsert succeeds, the success edit fails, the error edit succeeds. The registry names the webhook that was just deleted. |
| Lifecycle.Join | cogs/global.py:157-188 | Join as intended. A failed webhook creation aborts with no change. Join succeeds iff creation and upsert succeed, and then the row is upserted and nothing is deleted. A failed upsert leaves the registry as it was and deletes the fresh webhook. |
| Lifecycle.JoinAgreesWhenEditsSucceed | cogs/global.py:177-188 | When both status edits succeed, join as written and join as intended give the same registry, reply and deletion. |
| Lifecycle.JoinNoOrphans | cogs/global.py:177-188 | The fresh webhook is in the registry iff it was not deleted. |
| Lifecycle.Leave | cogs/global.py:193-247 | A failed store reports an error and changes nothing. When no row matched (guild, channel), the reply is "not subscribed", nothing changes and no webhook is deleted. Otherwise only the guild's row goes, and its webhook is deleted when it has one. |
| Lifecycle.LeaveIgnoresDeletion | cogs/global.py:230-241 | The reply and the registry of leave do not depend on the webhook delete's answer. NotFound, Forbidden and other errors are all tolerated. |
| Lifecycle.LeaveTwice | cogs/global.py:213-227 | A second leave from the same channel reports "not subscribed" and changes nothing. |
| Lifecycle.JoinThenLeave | cogs/global.py:150-247 | Join then leave from the same channel removes the guild's row and deletes the new webhook. |
| Text.DecimalRoundTrip | cogs/global.py:51-52 | Ids written as decimal text (`str(id)`) parse back to the same id. |
| Text.DecimalInjective | cogs/global.py:111 | Distinct ids have distinct decimal text, so the source test on text compares the ids. |
| Text.StripPadded | verify.py:35 | `strip` removes exactly the surrounding whitespace from a word that neither starts nor ends with whitespace. |
| Text.UpperOfLower | verify.py:35 | `upper` undoes lower-casing on words of capital letters and digits. |
| Text.ReplaceIsJoinOfSplit | main.py:212 | `replace` equals splitting on the pattern and joining with the replacement. |
| Text.ReplaceAbsent | main.py:212 | `replace` leaves a text without the pattern unchanged. |
| JsonList.Hex4RoundTrip | main.py:418-419 | The four-digit hex escapes `json.dumps` writes parse back to the code unit. |
| JsonList.SurrogatesRoundTrip | main.py:418-419 | A character outside the basic plane, written as a surrogate pair, is read back as that character. |
| JsonList.StringRoundTrip | main.py:418-419 | An escaped JSON string is read back as the original string, and reading stops right after its closing quote. |
| JsonList.RoundTrip | main.py:418-419 | `json.loads(json.dumps(xs)) == xs` for every list of strings. |
| JsonList.Encode | main.py:418-419 | `json.dumps` of a list is bracketed text, and is exactly `[]` iff the list is empty. |
| JsonList.Decode | main.py:339-346 | Only text that opens with `[` decodes, and it decodes to the empty list iff it is exactly `[]`. |
| JsonList.EncodeNonEmpty | main.py:418-419 | The encoded list is never empty text, so the read side decodes it rather than defaulting it. |
| ServerSettings.DecodeListColumn | main.py:339-344 | A NULL or empty list column reads as the empty list. |
| ServerSettings.DecodeRow | main.py:337-349 | A row decodes iff both list columns decode. The text columns are copied, and a flag is true iff its integer is non-zero. |
| ServerSettings.ReadSettings | main.py:333-363 | A guild without a row reads as the default record (prefix "!", empty strings, false flags, empty lists). |
| ServerSettings.EncodeRow | main.py:417-442 | Flags are written as 0 or 1, 1 iff the flag is set, and both list columns are written as JSON text. |
| ServerSettings.DecodeEncode | main.py:417-442 | Decoding an encoded record gives the record back, so strings, flags and lists round-trip. |
| ServerSettings.Merge | main.py:408-415 | Each of the eight keys takes the request's value when the request names it, and keeps the stored value otherwise. |
| ServerSettings.MergeLaws | main.py:408-415 | An empty request keeps everything, and applying a request twice equals applying it once. A request naming every key decides the whole record. |
| ServerSettings.PrefixOnlyUpdate | main.py:408-415 | A request naming only the prefix changes only the prefix. |
| ServerSettings.UpdateSettings | main.py:375-444 | An update fails and writes nothing iff the stored row cannot be decoded. Otherwise it writes the guild's row only. |
| ServerSettings.ReadAfterUpdate | main.py:375-444 | Reading after an update gives the merge of the stored record, or of the defaults when there was none, with the request. |
| ServerSettings.UpdateIsLocal | main.py:427-442 | Other guilds read the same before and after an update. |
| Setup.SetupServer | cogs/setup.py:33-73 | Setup creates a row iff the guild has none. An existing row means nothing is written. A new row is the setup default, and other rows are untouched. |
| Setup.SetupIdempotent | cogs/setup.py:37-41 | A second setup reports "exists" and leaves the table unchanged. |
| Setup.SetupIsLocal | cogs/setup.py:55-73 | Setup leaves every other guild's row alone. |
| Setup.SetupRowDecodes | cogs/setup.py:44-53 | The inserted row is the encoding of the default record with prefix "z!", and reads back as that record. |
| GuildSync.SyncGuilds | main.py:118-143 | After reconciliation the table holds exactly the current guilds. Newly added guilds have `joined = 1`, and rows already stored are kept as they were. |
| GuildSync.ReconcileIdempotent | main.py:118-143 | A second reconciliation against the same guild set changes nothing. |
| GuildSync.OnGuildJoin | main.py:148-156 | Joining upserts the guild with `joined = 1` and leaves other rows alone. |
| GuildSync.OnGuildRemove | main.py:159-164 | Removal deletes exactly the guild's row. |
| GuildSync.RemoveTwice | main.py:159-164 | Removing twice is the same as removing once. |
| GuildSync.JoinedGuilds | main.py:311-318 | The API lists exactly the guilds whose `joined` flag is 1. |
| GuildSync.JoinedAfterSync | main.py:118-143 | After reconciliation, with every stored flag 1, the API lists exactly the current guilds. |
| GuildSync.StaleFlagSurvives | main.py:129-136 | A stored `joined = 0` row for a current guild is kept as it is, and the API leaves that guild out. |
| Welcome.WelcomeText | main.py:212 | The welcome text replaces `{user}` first and `{guild}` second, keeping the text between placeholders verbatim. |
| Welcome.PlainTemplateUnchanged | main.py:212 | A template without placeholders is sent as written. |
| Welcome.OnMemberJoin | main.py:167-237 | Nothing is sent for bots, for an undecodable settings row, or for a guild without a row. When a greeting is sent, the template was non-empty, the text is the substituted template, and the target is the system channel iff the bot may write there. Otherwise the target is the configured, usable log channel. With a non-empty template, nothing is sent iff neither channel is usable. |
| Owners.IsOwner | main.py:66-74 | An owner-only command is permitted iff the author's id is one of the three allowed ids. |
| Verification.VerifyCommand | verify.py:165-183 | With a role, the guild's mapping becomes that role, and no other key changes. Without one, nothing changes; an error is reported iff the guild has no mapping, and otherwise the panel names the mapped role. |
| Verification.AlphabetChar | verify.py:119 | Positions 0-25 of the alphabet are the capital letters A-Z and positions 26-35 are the digits, so every drawn character is a capital letter or a digit. |
| Verification.GenerateCode | verify.py:119 | An issued code has 5 characters; character i is the alphabet character at the i-th drawn position. |
| Verification.StartVerification | verify.py:96-156 | A code is issued iff the guild has a mapped role that still exists. Otherwise nothing changes. Issuing sets the user's entry to (code, guild, role), overwriting an earlier one, and leaves other users' entries unchanged. |
| Verification.SubmitAsWritten | verify.py:34-77 | The handler as written. Only a success removes an entry, and it removes exactly the submitting user's. A pending entry whose guild is gone crashes the handler. |
| Verification.GuildGoneCrashesAsWritten | verify.py:45-47 | Counterexample: the right code for a guild the bot no longer sees gets no reply at all. |
| Verification.Submit | verify.py:34-77 | An unknown user gets "no pending code" and nothing changes. The result is Verified iff the normalised input matches and the guild, member and role are all present and the grant succeeds; success removes exactly the user's entry and nothing else. A mismatch keeps the entry. A pending entry whose guild is gone never crashes: the store is unchanged, and the reply is the "server or role problem" message for the right code and the "member unavailable" message otherwise. The handler fails without replying only when a platform call raised. |
| Verification.SubmitAgreesWhenGuildPresent | verify.py:45-77 | While the guild is present, the corrected handler and the handler as written agree. |
| Verification.PressCodeButton | verify.py:85-89 | Only the user the button was created for may open the code modal. |
| Verification.OnlyOwnEntryConsumed | verify.py:85-89 | A submission through the button never changes another user's pending entry. |
| Verification.Normalize | verify.py:35 | The normalised input is empty iff the typed text is all whitespace, and a typed text that is already a code once stripped is kept as it is. |
| Verification.NormalizePadded | verify.py:35 | A code typed in lower case with surrounding whitespace normalises to the code. |
| Verification.IssueThenSubmit | verify.py:34-156 | Issuing a code, then typing it back (lower-cased and padded) verifies the member and removes the entry. |

## Left out

- SQLite connections, executor threads and the Flask server. The tables are in-memory maps. Only the registry writes of join and leave have a failure input; the other database calls are modelled as succeeding, as the lines below list.
- Relay.OnMessage: a registry read or prune that raises (cogs/global.py:87, 131, 143) ends the handler after the stamp, with no further sends or pauses and no reaction. The model has every read and prune succeed. A raise at cogs/global.py:65 comes before the stamp and leaves nothing changed, like an unregistered channel.
- Lifecycle.Leave: a status edit that raises makes the handler reply with an error. At cogs/global.py:226, on the not-subscribed path, nothing had changed. At cogs/global.py:244 the row and the webhook are already gone. The model has both edits succeed. The webhook lookup at cogs/global.py:210 sits outside the `try` and is modelled as succeeding.
- Setup.SetupServer: a database failure at cogs/setup.py:77 makes the command reply with an error and write nothing. The model has the setup transaction succeed.
- GuildSync.SyncGuilds: a database failure during reconciliation (main.py:123-143) aborts start-up sync and rolls the transaction back. The model has the reconciliation succeed.
- GuildSync.OnGuildJoin, GuildSync.OnGuildRemove, GuildSync.JoinedGuilds: a database failure (main.py:150-156, 161-164, 311-325) aborts the handler or answers HTTP 500. The model has these calls succeed.
- Welcome.OnMemberJoin: a settings read that raises (main.py:176-179) ends the handler with nothing sent. The model has the read succeed.
- ServerSettings.ReadSettings, ServerSettings.UpdateSettings: a database failure other than an undecodable row answers HTTP 500 and writes nothing. The model has the read and the write succeed, and its only failure is the undecodable row.
- The Discord client and the webhook transport. Their answers are input enumerations.
- `asyncio.sleep`. Pauses are counted as `Pause` effects, not timed.
- The relay's embed colour and timestamp. Only the fields the payload carries are modelled.
- The `@commands.cooldown(2, 10)` rate limit on the join and leave commands, and their permission checks. These are the framework's, not the bot's.
- The owner-only error reply and the cog load, reload, unload, shutdown and restart commands. These are process control.
- Concurrency across handlers. Each handler run is atomic, and the cooldown's read and write have no suspension point between them.
- The captcha image and its random noise, and the `roles.json` file I/O. The role map is a value passed in and returned.
- The error-handler cog and the help command.
- The second copy of `main.py` after line 480.
- Cooldown.TryAcquire: `time.time()` is a float, and the model uses whole seconds.
- Text.Upper: Python's full Unicode upper-casing is approximated. ASCII letters are mapped, plus the few characters whose upper case is ASCII (dotless i, long s, sharp s and the Latin ligatures). Every other character is kept. That subset decides whether a typed code can match.
- JsonList.Decode: the accepted text is the form `json.dumps` writes (", " separators, raw characters from U+0020 up, the escapes it emits), plus the `\/` escape and upper-case hex digits in `\u` escapes. Other JSON text `json.loads` would accept (extra whitespace, other escape spellings, non-list values) is treated as a decode error. Values that are not lists of strings are outside the model.
- JsonList.Decode: a lone surrogate escape such as `\ud800` is a decode error, while `json.loads` accepts it. A Dafny `char` cannot hold a lone surrogate, so a list column holding one reads as undecodable.
- ServerSettings.Update: request values are typed. The `bool(value)` truthiness of non-boolean flag values is not modelled, nor are non-string values for the text columns. Request keys without a column are dropped, as the write drops them.
- ServerSettings.ReadSettings: a guild key is any text, as the API route passes it. A row whose flag column holds something other than an integer is not modelled.
- GuildSync.SyncGuilds: the timestamp is one caller-supplied text per reconciliation, not a clock read per row.
- Verification.Normalize: the modal's `max_length=10` (verify.py:31) is not enforced. `Normalize`, `NormalizePadded` and `IssueThenSubmit` allow whitespace padding of any length, including inputs longer than the modal would accept.
- Verification.Submit: the failure reply says to retry in one minute, while the timeout applied is ten minutes. Replies are modelled as kinds, not texts.
- Welcome.OnMemberJoin: a log channel id that is not a number makes `int()` raise. The model folds this into `LogChannelUnusable`, since in both cases nothing is sent.

## Findings

| source | as written | input that shows it | evidently intended | confidence | as-written member | corrected member |
|---|---|---|---|---|---|---|
| cogs/global.py:177-188 | The success edit of the status message sits in the same `try` as the registry upsert, and the `except` deletes the freshly created webhook. | The upsert succeeds, the success `msg.edit` raises, and the error `msg.edit` succeeds. The new registry row points at a deleted webhook. | Delete the webhook only when the registry write failed. | not executed | Lifecycle.OrphanedRowAsWritten | Lifecycle.Join |
| verify.py:45-47 | `guild.get_member(...)` is called before the `if guild and member` test, so a guild the bot no longer sees raises `AttributeError`. | A pending entry for guild 9, the bot no longer in guild 9, and the right code submitted. The handler raises and the member gets no reply. | Treat a missing guild like a missing member, so the "server or role problem" reply is sent. | not executed | Verification.GuildGoneCrashesAsWritten | Verification.Submit |
