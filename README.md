# Shortenr bot core, modelled in Dafny

Shortenr is a Discord bot. This project models the parts of it that make
decisions and keep state:

- The private-link gate on every message. It reads the guild's config, finds
  the links in the message text, and warns, deletes, or deletes and logs on the
  first link the classifier flags.
- The slash-command dispatcher:
  - autocomplete routing;
  - a cooldown per command and per user, kept in an in-memory map;
  - the user and then the bot permission checks;
  - `safeReply`.
- The `shorten` command: a daily quota of ten links per user in the `users`
  table, the link shown, and its "Copy Link" button.
- The `block-ip-mode` command:
  - who may run it;
  - the mode write done by its enable/disable buttons;
  - the custom CIDR ranges and the restricted channels.
- The `setup` command: the owner-only panel whose three menus upsert the
  guild's admin role, admin users and report channel.

The files, one module each:

| file | module | models |
|---|---|---|
| `js.dfy` | `Js` | the JavaScript semantics the code relies on: `null`, `||`, `??`, `\s` and `trim`, `startsWith`, `split` |
| `json.dfy` | `Json` | `JSON.stringify` of an array of strings and `JSON.parse` back to one, with the round trip proved |
| `configs.dfy` | `Configs` | the `configs` row and table; the table is a class whose upsert and update change it in place |
| `url_scan.dfy` | `UrlScan` | `matchAll(/https?:\/\/[^\s]+/g)` as a scan over the text |
| `priv_ip.dfy` | `PrivIp` | `events/privIp.js` |
| `shorten.dfy` | `Shorten` | `slashCommands/info/shorten.js` |
| `interaction_create.dfy` | `InteractionCreate` | `events/interactionCreate.js` |
| `block_ip.dfy` | `BlockIp` | `slashCommands/info/blockip.js` |
| `setup.dfy` | `Setup` | `slashCommands/info/setup.js` |

Things are modelled as follows:

- The platform calls a handler makes are returned as a list of effects, in
  order.
- The database tables are classes whose methods change a `map` field.
- The state a command keeps between its menu steps is a `Session` class:
  - in `setup`, the local `config` object and `adminUserIds` variable;
  - in `block-ip-mode`, the config snapshot and the chosen action.

The code is modelled as written, including these inconsistencies:

- The gate reads `blockPrivateLinks` and `blockPrivateLinksAction`.
  `block-ip-mode` writes different columns, `blockPrivateIPs` and
  `blockAction`. So the mode write never turns the gate on or off
  (`BlockIp.ModeWriteLeavesGate`). A row it inserts leaves the gate off.
- `block-ip-mode` offers the value `delete-log`, but the gate knows only
  `delete_and_log`, so `delete-log` causes no action
  (`PrivIp.DeleteLogSpellingDoesNothing`, `BlockIp.ActionValuesAgainstGate`).
- `allowedChannels` is written but never read by the gate
  (`BlockIp.GateIgnoresAllowedChannels`).
- The button collector of `block-ip-mode` filters only on the user, so any
  other component of the same user (for example `channel_select`) reaches
  it too. Its handler classifies such an id as "disable"
  (`BlockIp.ChannelSelectWritesDisabled`). Whether the disable write then
  happens depends on which collector's `update` the platform accepts (see
  "Left out").
- Lists read back from the database:
  - `block-ip-mode` accepts an admin list the database returns as an array.
  - `setup` passes the same array to `JSON.parse` through its string form.
    For an empty array and for an array of several ids, that parse throws
    (`Setup.NativeListsDiverge`).
  - Both read back the JSON text they write themselves
    (`Setup.SetupAdminsReadBack`, `BlockIp.InsertedAdminsReadBack`).
- The parse of the stored admin list comes before the owner test, so a list
  that does not parse locks even the guild owner out of `block-ip-mode`
  (`BlockIp.StartCommand`).
- The dispatcher sets the cooldown entry before the permission checks and
  before the command runs. A refused or failing run therefore still starts
  the cooldown (`InteractionCreate.Dispatcher.Handle`).

The message gate of `events/privIp.js` behaves as follows:

- It looks only at `http://` and `https://` URLs ended by whitespace. IP
  literals elsewhere in the text are not examined.
- It does not consult the configured ranges or the channel allow-list. The
  classifier gets only the link.
- The stored action value it deletes and logs on is `delete_and_log`.
- A failed delete ends the handling: no log is sent after it.
- The log record carries the user, the channel and the link, and no excerpt
  of the message.

## Model

| member | source | states |
|---|---|---|
| Js.Coalesce | slashCommands/info/setup.js:118-127 | `a ?? b`: the left operand unless it is nullish, then the right one |
| Js.OrElse | events/privIp.js:28 | `a \|\| d` on a string: the value when present and non-empty, otherwise the default |
| Js.SkipLeading | slashCommands/info/blockip.js:245 | the leading whitespace `trim` removes: whitespace up to the first other character or the end |
| Js.SkipTrailing | slashCommands/info/blockip.js:245 | the trailing whitespace `trim` removes: whitespace after the last other character |
| Js.Trim | slashCommands/info/blockip.js:245 | `trim` never lengthens its input, leaves no whitespace at either end, and keeps a string without whitespace as it is |
| Js.TrimIsInnerSlice | slashCommands/info/blockip.js:245 | `trim` returns a slice of its input, removes only whitespace and only at the ends, and leaves no whitespace at either end |
| Js.TrimFixesTrimmed | slashCommands/info/blockip.js:245 | a string with no whitespace at either end is its own trim |
| Js.TrimIdempotent | slashCommands/info/blockip.js:245 | trimming a trimmed string changes nothing |
| Js.Split | slashCommands/info/blockip.js:245 | `split(',')` gives exactly one more piece than there are commas, and no piece contains a comma |
| Js.Join | slashCommands/info/setup.js:49 | `String(array)` joins the items with commas: it begins with the first item and is empty only for a single empty item |
| Js.JoinSplit | slashCommands/info/blockip.js:245 | joining the pieces of a split with the separator gives back the input |
| Json.Stringify | slashCommands/info/blockip.js:192 | `JSON.stringify` of an array of strings is bracketed, is `[]` exactly for the empty array, and otherwise opens with a quote |
| Json.Parse | slashCommands/info/blockip.js:28 | `JSON.parse` gives an array only for a text whose first token is `[`, and `'[]'` parses to the empty array |
| Json.SurrogatePairParses | slashCommands/info/blockip.js:28 | an escaped surrogate pair (`\ud83d\ude00`) decodes to the one character it encodes |
| Json.ParseStringify | slashCommands/info/blockip.js:192 | `JSON.parse(JSON.stringify(xs))` is `xs` for every array of strings, whatever characters they hold |
| Json.StringifyInjective | slashCommands/info/blockip.js:248 | different lists of strings are stored as different JSON texts |
| Configs.ListOrEmpty | slashCommands/info/blockip.js:188-189 | `field \|\| '[]'`: a null or empty list column becomes `'[]'`, and any other value is kept |
| Configs.Lookup | events/privIp.js:15-20 | the config read finds a row exactly when the guild has one, and it is that guild's row |
| Configs.ConfigTable.Upsert | slashCommands/info/blockip.js:181-201 | insert-or-update on `guildId`: a new guild gets the inserted row, an existing one gets its row patched, no other guild changes, and rows stay keyed by their guild |
| Configs.ConfigTable.UpdateWhere | slashCommands/info/blockip.js:247-250 | an update of the guild's row, and no change at all when the guild has none |
| UrlScan.SchemeLength | events/privIp.js:24 | the scheme is `https://` (8 characters) or `http://` (7) and lies inside the text |
| UrlScan.RunEnd | events/privIp.js:24 | `[^\s]+` runs greedily: no whitespace before the end, and whitespace or the end of the text at it |
| UrlScan.MatchesFrom | events/privIp.js:24 | every match is non-empty, lies inside the text, and ends no later than the next one starts |
| UrlScan.Urls | events/privIp.js:24 | the extracted links are the texts of the matches, in order |
| UrlScan.MatchesSound | events/privIp.js:24 | each match starts where the expression matches and runs to the next whitespace or the end |
| UrlScan.MatchesComplete | events/privIp.js:24 | no match is missed: every position where the expression matches lies inside an extracted match |
| UrlScan.UrlShape | events/privIp.js:24 | every link starts with `http://` or `https://`, is longer than its own scheme (so an `https://` link has more than 8 characters), and contains no whitespace |
| UrlScan.RunPastScheme | events/privIp.js:24 | the greedy run from a match's start goes past its scheme, so every match holds at least one character after it |
| UrlScan.MatchesDisjoint | events/privIp.js:24 | any two matches are disjoint and in text order |
| PrivIp.Enabled | events/privIp.js:22 | the gate is on only for a row whose `blockPrivateLinks` is `true`; no row, `null` or `false` leave it off |
| PrivIp.ActionOf | events/privIp.js:28 | the action is the stored non-empty value, otherwise `warn`, and is never empty |
| PrivIp.Respond | events/privIp.js:28-61 | for the flagged link: a delete exactly for `delete`/`delete_and_log` (default `warn`); a warning exactly for `warn`; a log exactly for `delete_and_log` when the delete succeeded and the report channel is set and cached; delete before log; nothing else |
| PrivIp.Act | events/privIp.js:30-61 | the calls of the `try` block are exactly those `Respond` specifies |
| PrivIp.Execute | events/privIp.js:11-65 | bots and DMs cause no call; otherwise the config is read first; a missing or disabled config stops there; exactly the first flagged link in text order is acted on, once; with no flagged link nothing follows the read |
| PrivIp.DeleteLogSpellingDoesNothing | events/privIp.js:31-43 | a stored action `delete-log` makes the gate neither delete, warn nor log |
| Shorten.NextRecord | slashCommands/info/shorten.js:36-68 | refused exactly on a same-day request at 10 links; a new user starts at 1/1; the same day counts one more; another day restarts at 1; the total always grows by one; the record stays within the quota |
| Shorten.DailyCap | slashCommands/info/shorten.js:46-52 | however many requests one user makes in one day, at most 10 minus the links already used that day are accepted |
| Shorten.UserTable.Charge | slashCommands/info/shorten.js:36-68 | the check-and-update on `users`: refused exactly when the quota is exhausted, leaving the table unchanged; otherwise stores `NextRecord` for this user only |
| Shorten.DisplayedLink | slashCommands/info/shorten.js:81 | the service's link when it returned a non-empty one, otherwise `Unknown`; never empty |
| Shorten.CopyButtonId | slashCommands/info/shorten.js:101 | the button id starts with `copy_link_` and the rest of it is the link |
| Shorten.CopyButtonAccepted | slashCommands/info/shorten.js:116 | the collector's `startsWith('copy_link_')` test accepts the button the command builds |
| Shorten.CopyButtonIdInjective | slashCommands/info/shorten.js:101 | different links get different button ids |
| Shorten.Run | slashCommands/info/shorten.js:29-153 | the quota is charged before the service is called: the limit reply exactly when exhausted; otherwise charged even when the service fails; the reply carries the displayed link and its button id |
| InteractionCreate.SafeReply | events/interactionCreate.js:85-95 | a `reply` exactly when the interaction is neither replied nor deferred, otherwise a `followUp` |
| InteractionCreate.CooldownKey | events/interactionCreate.js:30 | the key is `slash-`, the command name, a dash, then the user id at its end |
| InteractionCreate.CooldownStep | events/interactionCreate.js:31-50 | blocked exactly when the command has a cooldown and this user's entry is non-zero and still in the future, with a positive time left; otherwise the entry becomes `now + cooldown`; no cooldown, no change |
| InteractionCreate.ExpiredIsAbsent | events/interactionCreate.js:33 | an entry that has run out acts exactly as if the removal timer had deleted it |
| InteractionCreate.CooldownStepLocal | events/interactionCreate.js:48 | the cooldown step changes no other command's or user's entry |
| InteractionCreate.CooldownWindow | events/interactionCreate.js:31-48 | after a run passes, the same user is blocked for `cooldown` ms with the exact time left, and let through afterwards |
| InteractionCreate.CooldownKeyInjective | events/interactionCreate.js:30 | with dash-free user ids, keys `slash-<name>-<user>` of different (command, user) pairs differ |
| InteractionCreate.CooldownKeyCollision | events/interactionCreate.js:30 | without that condition two pairs can share a key |
| InteractionCreate.Has | events/interactionCreate.js:53-54 | `Administrator` passes every check, no needed permission passes, and otherwise the check fails exactly when a needed permission is missing |
| InteractionCreate.CheckPerms | events/interactionCreate.js:53-68 | both checks throw before either is evaluated when a needed permission set is missing; user permissions are checked before bot permissions; `Administrator` passes every check; the command runs only when both pass |
| InteractionCreate.AfterCooldown | events/interactionCreate.js:52-79 | exactly one refusal or error reply when the checks fail or throw; otherwise the run, followed by the error reply when it throws, chosen by the flags it left behind |
| InteractionCreate.Dispatcher.Handle | events/interactionCreate.js:8-80 | autocomplete never runs the command or touches cooldowns; non-commands and unknown names do nothing; a blocked command replies with the time left and keeps the map; otherwise the map is updated and the permission phase follows |
| BlockIp.AdminIds | slashCommands/info/blockip.js:26-28 | a stored array is taken as is; null or empty text gives `[]`; other text is parsed, and an unparseable one is a thrown error |
| BlockIp.Authorized | slashCommands/info/blockip.js:30-34 | the owner and every listed admin user are let through, and so is a holder of the configured role; an empty or missing role id grants nothing |
| BlockIp.StartCommand | slashCommands/info/blockip.js:25-43 | a parse failure fails the command for everyone; otherwise the owner, a holder of the set admin role, or a listed admin is let through, and everyone else is refused |
| BlockIp.NoAdminsOnlyOwner | slashCommands/info/blockip.js:30-34 | a guild without admin data admits exactly its owner |
| BlockIp.ActionValuesAgainstGate | slashCommands/info/blockip.js:54-58 | of the menu's values, the gate acts on `warn` and `delete` and ignores `delete-log` |
| BlockIp.Classify | slashCommands/info/blockip.js:160-179 | `advanced_config` opens the advanced menu; every other id writes the mode, enabled exactly for `enable_blocking` |
| BlockIp.ChannelSelectWritesDisabled | slashCommands/info/blockip.js:143-179 | the button collector's handler classifies both select-menu ids as a "disable" write |
| BlockIp.OrNull | slashCommands/info/blockip.js:190-191 | `x \|\| null`: the value when truthy, otherwise null |
| BlockIp.InsertRow | slashCommands/info/blockip.js:183-194 | the inserted row has the guild, the mode and the action, the admin list as JSON text, the snapshot's id or the interaction id, and no gate columns; without a snapshot the two lists are `'[]'`, role and report channel null and `strictMode` false; with one, each carried column is the snapshot's value or its default when falsy |
| BlockIp.ModePatch | slashCommands/info/blockip.js:195-201 | the conflict update changes `blockPrivateIPs` and `blockAction` and nothing else |
| BlockIp.ModeWriteLeavesGate | slashCommands/info/blockip.js:181-201 | after the mode write, every guild's gate is enabled exactly as before, and an existing row keeps its gate action and report channel |
| BlockIp.InsertedAdminsReadBack | slashCommands/info/blockip.js:192 | the admin list the insert writes is read back as the same list on the next run |
| BlockIp.ParseRanges | slashCommands/info/blockip.js:245 | one range per comma-separated piece, each trimmed |
| BlockIp.RangesClean | slashCommands/info/blockip.js:245 | no stored range contains a comma or has whitespace at either end |
| BlockIp.BlankReplyStoresEmptyRange | slashCommands/info/blockip.js:245 | an empty reply stores `[""]`, and `" , "` stores two empty ranges |
| BlockIp.RangesReadBack | slashCommands/info/blockip.js:248 | the stored JSON text of the ranges parses back to them |
| BlockIp.TextChannels | slashCommands/info/blockip.js:258 | the filter keeps only text channels of the cache |
| BlockIp.TextChannelsComplete | slashCommands/info/blockip.js:258 | the filter drops no text channel |
| BlockIp.TextChannelsOrder | slashCommands/info/blockip.js:258 | the filter keeps the cache order |
| BlockIp.ChannelOptions | slashCommands/info/blockip.js:257-260 | the first `min(25, text channels)` text channels, each as (name, id), in order |
| BlockIp.Session.constructor | slashCommands/info/blockip.js:25-86 | the snapshot is the guild's row as the table holds it at the start; a session exists only for a member `StartCommand` admits on that row, holds the admin list it parsed, and an action that is one of the menu's values |
| BlockIp.Session.PressButton | slashCommands/info/blockip.js:148-201 | `advanced_config` leaves the table alone; any other id upserts the mode: the insert for a new guild, only mode and action for an existing one; afterwards the guild's row holds the mode and a menu action |
| BlockIp.Session.ReplyRanges | slashCommands/info/blockip.js:244-250 | the parsed ranges replace the guild's stored ranges, and nothing happens for a guild without a row |
| BlockIp.Session.SelectChannels | slashCommands/info/blockip.js:279-291 | the chosen ids replace the guild's stored list |
| BlockIp.GateIgnoresAllowedChannels | slashCommands/info/blockip.js:286-291 | the gate decides the same whatever `allowedChannels` holds |
| Setup.ArrayText | slashCommands/info/setup.js:49 | an array's string form is empty exactly for `[]` and `[""]` |
| Setup.SetupIds | slashCommands/info/setup.js:49 | null or empty text gives `[]`; text is parsed; an array is parsed through its string form; failure is a thrown error |
| Setup.EmptyListParses | slashCommands/info/setup.js:43-49 | the default `'[]'` parses to the empty list |
| Setup.NativeListsDiverge | slashCommands/info/setup.js:49 | an array-valued admin list fails `setup` while `block-ip-mode` reads it |
| Setup.Open | slashCommands/info/setup.js:25-49 | the owner guard comes first; a guild without a row starts with no role, no admins and no channel; otherwise the stored values are kept, and an unparseable list fails |
| Setup.UpsertId | slashCommands/info/setup.js:111 | the existing row's id when it has a non-empty one, otherwise the fresh uuid |
| Setup.Merge | slashCommands/info/setup.js:118-127 | each written value is the pick's field when given, otherwise the panel's current one |
| Setup.SetupWriteStores | slashCommands/info/setup.js:109-130 | insert and update write the same three values; the row holds them afterwards; the update keeps id and all other columns; no other guild changes |
| Setup.SetupAdminsReadBack | slashCommands/info/setup.js:119 | the admin list `setup` writes is read back unchanged by `setup` and by `block-ip-mode` |
| Setup.Session.constructor | slashCommands/info/setup.js:25-49 | a panel exists only for the guild owner (`Open`'s guard); it starts from the guild's row as the table holds it, role, parsed admin list and report channel, or from no role, no admins and no channel when there is no row |
| Setup.Session.Upsert | slashCommands/info/setup.js:109-130 | `upsertConfig` stores the merged values under `UpsertId` |
| Setup.Session.RoleSelected | slashCommands/info/setup.js:137-141 | the picked role becomes the admin role, in the panel and in the table, which mirrors the panel afterwards |
| Setup.Session.UsersSelected | slashCommands/info/setup.js:156-160 | the picked users replace the admin list, in the panel and in the table |
| Setup.Session.ChannelSelected | slashCommands/info/setup.js:175-179 | the picked channel becomes the report channel, in the panel and in the table |

## Left out

- `utils/isPrivateLink` is not part of this model. The private-link
  classifier is a parameter of `PrivIp.Execute`.
- Message text, embeds, colours, ephemeral flags and the `ms` formatting of
  the remaining time are left out: they do not affect any decision. The
  cooldown notice carries the remaining milliseconds.
- Timers are left out:
  - the cooldown-removal `setTimeout`. `InteractionCreate.ExpiredIsAbsent`
    shows only that removing an entry that has already expired changes no
    decision. A timer of an earlier run that fires after a later run has set
    a fresh entry would delete that entry and cancel its cooldown; the model
    does not capture this;
  - the timers that disable components;
  - collector time limits and `max` counts. Each collector step is modelled
    as an event that arrives.
- BlockIp.ChannelSelectWritesDisabled, BlockIp.Session.ReplyRanges,
  BlockIp.Session.SelectChannels: an `advanced_option_select` or
  `channel_select` pick reaches both the button collector and the advanced
  collector, and both handlers call `update` on it. The platform accepts one
  response per interaction, so the second `update` throws and stops its
  handler: per pick, either the disable write happens or the advanced step
  does (the CIDR prompt, the channel menu or the `allowedChannels` write),
  never both. The model treats each handler as if its `update` were the one
  accepted, and does not say which one wins.
- The collector filter of `block-ip-mode` at `blockip.js:80` compares the
  pick's message id with the interaction's id. If the two never match,
  nothing from `blockip.js:85` onward runs: no button menu, no mode write
  and no advanced step. The model assumes the opposite, that the action pick
  arrives.
- I/O failures are left out: database errors, failed platform calls (except
  the message delete, whose failure `PrivIp.Respond` models), and the
  shortening service's HTTP call. The service is reduced to the `ApiResult`
  it answers.
- Database constraints are left out. `drizzle/schema.js` makes `reportChannel`
  NOT NULL and has none of the blocking columns; the model lets every write
  succeed.
- Concurrency is left out. Each handler and collector step runs as one
  atomic step on the tables.
- Clocks, dates and randomness are parameters:
  - `now` for `Date.now()`;
  - `today` for the ISO date string;
  - `uuid` for `randomUUID()`;
  - the interaction's id.
- Shorten.UserTable.Charge: counts are unbounded integers. The 32-bit
  `integer` columns are not modelled.
- Shorten.Run: assumes the platform accepts the reply. A button id over
  Discord's 100-character limit, or the link `Unknown` as a button URL,
  would be rejected at send time. The rejection would go to the `catch`
  with the quota already charged.
- Json.Parse: a `\u` escape of a lone surrogate, high or low, is refused.
  JavaScript would give a string holding that code unit, which a Dafny
  string cannot hold. A well-formed pair is decoded
  (`Json.SurrogatePairParses`).
- BlockIp.AdminIds: a stored text that is valid JSON but not an array of
  strings (a number, a string, an object) counts as a thrown error. So does
  a `\u` escape of a lone surrogate (see `Json.Parse`). JavaScript would go
  on with the parsed value.
- Setup.SetupIds: the same restriction to arrays of strings as
  `BlockIp.AdminIds`. One case matters here. An admin list the database hands
  back as an array of one numeric id, such as `["123"]`, has the string form
  `123`, which `JSON.parse` reads as the number 123. Where the model reports a
  thrown error, `setup` goes on. It shows "No admins set", and the next pick
  stores `123` as the admin list.
- BlockIp.ChannelOptions: a guild with no text channel gives an empty option
  list. `setMaxValues(0)` with `setMinValues(1)` would then be rejected by
  the platform, which is not modelled.
- The autocomplete handler's own work is left out. `Dispatcher.Handle`
  records only that it is called.
- The command registry is a parameter of `Dispatcher.Handle`. Loading it
  (`index.js`) is not modelled.
- The other commands and events (`help`, `upload`, `checkurl`, `ready`) are
  outside the modelled core.
