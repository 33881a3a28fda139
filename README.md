# Telegram group bots: a verified model

This project models the logic of two small Telegram bots.

- **The group-manager bot** (`fun_bot/index.js`) runs a link filter over every message.
  A message from anyone but an administrator or the creator that matches `/https?:\/\/\S+/i` is deleted and earns its sender one
  warning. Any member can also warn a user with `/warn`, sent as a reply to one of the
  user's messages: the code checks neither the issuer's status nor the target's, so
  admins and the creator can be warned this way. Both paths share one table of warning counts. When a count reaches `maxWarns`
  (3), the bot tries to kick the user. A successful kick resets the count to 0. A failed
  kick leaves the count as it is. The bot also handles `/mute [minutes]`, `/unmute`,
  `/kick`, `/ban` and `/warns`. Each of these needs a replied-to message; without one the
  bot only answers with a usage hint.
- **The copyright bot** (`copyright_bot/index.js`) lower-cases every text message and
  checks it for four keywords, matched as substrings. A flagged message is appended to a
  log. `/status` reports the number of log entries, and `/reports` lists them, numbered
  from 1.

Modules:

- `Wrappers` (`wrappers.dfy`) defines `Option`.
- `Text` (`text.dfy`) models the JavaScript string operations the bots rely on:
  - ASCII `toLowerCase` and `includes`;
  - the ECMAScript white-space set used by `\S` and by `parseInt`;
  - `split(' ')`, with its inverse `Join`;
  - the prefix parse of `parseInt`: leading white space, a sign, a `0x` prefix and the
    longest run of digits, with `NaN` modelled as `None`;
  - decimal rendering of numbers in template literals.
- `GroupBot` (`group_bot.dfy`) models the group-manager bot:
  - the warning table as specification functions (`Violation`, `MessageStep`,
    `CommandStep`, `Step`, `Run`);
  - a class `GroupManager` whose field `users` is the table, with handler methods proved
    against those functions.
- `GroupBotProps` (`group_bot_props.dfy`) holds the group-manager bot's properties:
  - only the target's count changes;
  - a count grows by one or resets;
  - with successful kicks, every count stays below `MaxWarns`;
  - with failing kicks, counts keep growing past `MaxWarns`;
  - the link test ignores case, and a white-space character right after the scheme rules
    out a link;
  - how the `/mute` duration is read.
- `CopyrightBot` (`copyright_bot.dfy`) models the copyright bot: the classifier, the log,
  and a class `ReportLog` with the `'text'`, `/status` and `/reports` handlers.
- `CopyrightBotProps` (`copyright_bot_props.dfy`) holds the copyright bot's properties:
  - flagging ignores case and word boundaries;
  - the log is exactly the flagged messages, in arrival order;
  - `/status` shows the log's length in a form that `parseInt` reads back;
  - `/reports` lists every entry under its number.

Each handler returns the platform calls it would make, in order, as a sequence of
`Action`s: delete, send a reply, kick, restrict, lift restrictions, log a failed kick.
The following are inputs rather than calls:

- whether a kick or a restriction succeeds (`apiOk`, `kickOk`, `restrictOk`);
- the sender's member status;
- the clock, in whole seconds;
- the ISO timestamp string of a log entry.

The code does not keep a warning count within `0..maxWarns`. When the kick at `maxWarns`
fails, the count stays at 3. Each further violation then adds one more and retries the kick.
`FailedKicksAccumulate` and `CountExceedsMaxWhenKickFails` state this behaviour. The bound
holds only when every kick succeeds, which `AllKicksSucceedKeepsBelowMax` states.

## Model

| member | source | states |
|---|---|---|
| Text.Lower | copyright_bot/index.js:23 | lower-casing keeps the length and maps each character on its own: each of A–Z to the matching letter of a–z, every other character unchanged |
| Text.Contains | copyright_bot/index.js:24 | `includes` is true exactly when the pattern occurs at some index of the text |
| Text.TrimStart | fun_bot/index.js:96 | the white space `parseInt` skips: the result is a suffix, everything dropped is JS white space, and the result does not start with white space |
| Text.Split | fun_bot/index.js:95 | `split(' ')` yields at least one field and no field contains the separator |
| Text.JoinSplit | fun_bot/index.js:95 | joining the fields of a split with the separator gives back the original text |
| Text.SplitJoin | fun_bot/index.js:95 | splitting a join of separator-free fields gives back exactly those fields |
| Text.DigitRun | fun_bot/index.js:96 | the digit run `parseInt` reads is maximal: every character in it is a digit of the base and the next one is not |
| Text.DecimalStringValue | copyright_bot/index.js:37 | a number renders as a non-empty string of decimal digits with no leading zero, whose value is the number |
| Text.ParseDecimal | fun_bot/index.js:96 | `parseInt` of a rendered natural number, followed by any non-digit text except an `x`, gives back that number |
| Text.ParseNegativeDecimal | fun_bot/index.js:96 | `parseInt` of a minus sign and a rendered number gives back the negated number |
| Text.ParseInt | fun_bot/index.js:96 | no contract of its own: `parseInt` with no radix; its results are stated by `ParseDecimal`, `ParseNegativeDecimal` and `NoDigitsIsNaN` |
| Text.NoDigitsIsNaN | fun_bot/index.js:96 | `parseInt` of a word that, after an optional sign, does not start with a decimal digit is `NaN` |
| GroupBot.IsExempt | fun_bot/index.js:43 | no contract of its own: a sender whose status is administrator or creator is exempt; used by `MessageStep` |
| GroupBot.HasLink | fun_bot/index.js:46 | the link test holds exactly when, at some index, `http://` or `https://` in any case is followed by a non-white-space character |
| GroupBot.WarnsOf | fun_bot/index.js:150 | no contract of its own: `users[id]?.warns \|\| 0`, the stored count or 0; used by `Violation` and `CommandStep` |
| GroupBot.Violation | fun_bot/index.js:51-63 | a warning adds the user to the table if absent and leaves other users' counts unchanged; below `MaxWarns` it adds one with no platform call; at or past `MaxWarns` it kicks, then resets to 0 if the kick succeeds, or keeps the raised count and runs the failure action if it fails |
| GroupBot.MessageStep | fun_bot/index.js:37-66 | the message handler acts exactly when the sender is not an administrator or the creator and the text has a link; it then deletes and replies first, its new count is 0 after a successful kick at `MaxWarns` and the raised count otherwise, and it kicks exactly when the count reaches `MaxWarns` |
| GroupBot.SecondField | fun_bot/index.js:95 | no contract of its own: `args[1]` of `split(' ')`; stated by `SecondFieldIffSpace`, `SecondFieldOf` and `SecondFieldOfMore` |
| GroupBot.MinutesFrom | fun_bot/index.js:96 | `parseInt(arg) \|\| 10`: a missing argument, a `NaN` or a 0 gives the default 10, any other parsed integer is the duration itself, so the duration is never 0 |
| GroupBot.MuteMinutes | fun_bot/index.js:95-96 | the `/mute` duration is never 0; its value for each form of argument is stated by `MuteMinutesOf`, `MuteWithoutArgument`, `MuteWithWord`, `MuteWithNumber` and `MuteWithNegativeNumber` |
| GroupBot.CommandStep | fun_bot/index.js:71-152 | every command without a replied-to message only sends its usage hint and changes no count; no command other than `/warn` changes a count |
| GroupBot.Step | fun_bot/index.js:37-152 | one handler removes no entry, and the only entry it can add is its sender's or `/warn` target's |
| GroupBot.Run | fun_bot/index.js:37-152 | a run of handlers never removes an entry from the table |
| GroupBot.GroupManager.constructor | fun_bot/index.js:9 | the table starts empty |
| GroupBot.GroupManager.Warn | fun_bot/index.js:51-63 | the in-place update of the table and the escalation calls equal `Violation` of the old table |
| GroupBot.GroupManager.OnMessage | fun_bot/index.js:37-66 | the message handler's new table and calls equal `MessageStep` of the old table |
| GroupBot.GroupManager.OnWarn | fun_bot/index.js:71-89 | `/warn`'s new table and calls equal `CommandStep` of the old table for `/warn` |
| GroupBot.GroupManager.OnMute | fun_bot/index.js:92-106 | `/mute`'s calls equal those of `CommandStep` for `/mute`: a usage hint without a target; otherwise a restriction of the target until `now + minutes * 60` and a report of the duration, or of the failure |
| GroupBot.GroupManager.OnWarns | fun_bot/index.js:147-152 | `/warns`'s calls equal those of `CommandStep` for `/warns`: it reports the target's stored count, or 0 for a user with no entry, and changes nothing |
| GroupBotProps.WarnCommandWarnsTarget | fun_bot/index.js:71-89 | `/warn` with a target first announces the raised count, then escalates exactly as a link violation does, reporting a failed kick in the chat |
| GroupBotProps.StepTouchesOnlyTarget | fun_bot/index.js:51-52 | a handler changes no count but that of its sender or target, and adds or removes no entry for anyone else |
| GroupBotProps.StepGrowsByOneOrResets | fun_bot/index.js:52-59 | after any handler a count is unchanged, one higher, or 0 after a successful kick from at least `MaxWarns - 1` |
| GroupBotProps.StepKeepsBelowMax | fun_bot/index.js:55-60 | when any kick it attempts succeeds, a handler keeps every count below `MaxWarns`; failed calls of the other commands are allowed |
| GroupBotProps.AllKicksSucceedKeepsBelowMax | fun_bot/index.js:79-84 | over any sequence of handlers whose kicks all succeed, every count stays below `MaxWarns` |
| GroupBotProps.BelowMaxAfterEveryHandler | fun_bot/index.js:55-60 | from an empty table with successful kicks, every count is below `MaxWarns` after every prefix of the run |
| GroupBotProps.FailedKicksAccumulate | fun_bot/index.js:55-63 | each violation whose kick fails adds exactly one to the count, with no cap at `MaxWarns` |
| GroupBotProps.CountExceedsMaxWhenKickFails | fun_bot/index.js:55-63 | from a count of 2, two linked messages with failing kicks raise the count to 3 and then 4, and try a kick both times |
| GroupBotProps.HasLinkIgnoresCase | fun_bot/index.js:46 | the link test gives the same answer on a text and its lower-cased form |
| GroupBotProps.HasLinkInContext | fun_bot/index.js:46 | a text with a link still has one when text is added around it |
| GroupBotProps.LinkStartsWithH | fun_bot/index.js:46 | every match starts with an `h` or `H` |
| GroupBotProps.NoLinkWithoutH | fun_bot/index.js:46 | a text with no `h` or `H` where a match could start has no link |
| GroupBotProps.SchemeThenSpaceIsNoLink | fun_bot/index.js:46 | `http://` followed directly by a white-space character is not a link |
| GroupBotProps.SecondFieldIffSpace | fun_bot/index.js:95 | a text has a second field exactly when it contains a space, and that field holds no space |
| GroupBotProps.SecondFieldOfMore | fun_bot/index.js:95 | with more fields after it, `args[1]` of `cmd + " " + arg + " " + more` is still `arg` |
| GroupBotProps.SecondFieldOf | fun_bot/index.js:95 | `args[1]` of `cmd + " " + arg` is `arg` when neither contains a space |
| GroupBotProps.MuteWithoutArgument | fun_bot/index.js:95-96 | `/mute` with no space-separated argument lasts 10 minutes |
| GroupBotProps.MuteMinutesOf | fun_bot/index.js:95-96 | the `/mute` duration depends only on the second field |
| GroupBotProps.MuteMinutesOfMore | fun_bot/index.js:95-96 | with more fields (`/mute 5 minutes`) the duration is read from the second field alone, and an empty second field (`/mute  5`, two spaces) gives 10 minutes |
| GroupBotProps.MuteWithWord | fun_bot/index.js:95-96 | `/mute` whose argument is no number (a word, a lone sign, an empty field) lasts 10 minutes |
| GroupBotProps.MuteWithNumber | fun_bot/index.js:95-96 | `/mute` with a number, optionally followed by non-digits, lasts that many minutes, or 10 for 0 |
| GroupBotProps.MuteWithNegativeNumber | fun_bot/index.js:96-100 | `/mute -n` keeps the negative duration, so the restriction's end lies before `now` |
| CopyrightBot.AnyOccurs | copyright_bot/index.js:24 | `some(k => text.includes(k))` holds exactly when some keyword occurs at some index |
| CopyrightBot.IsFlagged | copyright_bot/index.js:20-24 | a message is flagged exactly when some keyword occurs in its lower-cased text |
| CopyrightBot.ReporterName | copyright_bot/index.js:26 | the logged name is the username unless it is absent or empty, and the first name otherwise |
| CopyrightBot.ReportOf | copyright_bot/index.js:26 | no contract of its own: the entry of a message holds the reporter's name, the original text and the date; stated through `OnText` and `FlaggedReportsCameFromFlaggedMessages` |
| CopyrightBot.Record | copyright_bot/index.js:24-26 | the old entries stay in front, and the message's own entry is added exactly when it is flagged |
| CopyrightBot.LogAfter | copyright_bot/index.js:22-27 | over a run of messages the old log is kept as a prefix and at most one entry is added per message |
| CopyrightBot.FlaggedReports | copyright_bot/index.js:24-26 | no contract of its own: the entries of the flagged messages in order, an independent reference tied to `LogAfter` by `LogIsFlaggedHistory` |
| CopyrightBot.StatusText | copyright_bot/index.js:37 | the `/status` text is the prefix followed by a number that `parseInt` reads back as the count |
| CopyrightBot.Line | copyright_bot/index.js:43 | a listed line ends with a newline; `LineNumberReadsBack` states that `parseInt` reads its number back |
| CopyrightBot.LinesFrom | copyright_bot/index.js:42-44 | no contract of its own: the numbered lines of the entries; stated by `LinesFromSplit`, `ReportsAppend` and `ReportsListEntry` |
| CopyrightBot.ReportsText | copyright_bot/index.js:41-45 | the `/reports` text starts with the header, so it is never the "No reports yet!" fallback |
| CopyrightBot.LinesFromSplit | copyright_bot/index.js:42-44 | the listing of two consecutive stretches of the log is the first's listing followed by the second's, numbered on |
| CopyrightBot.ReportLog.constructor | copyright_bot/index.js:8 | the log starts empty |
| CopyrightBot.ReportLog.OnText | copyright_bot/index.js:22-33 | the handler flags exactly the texts `IsFlagged` accepts; it appends the entry with the original text to a flagged message, and leaves the log unchanged otherwise |
| CopyrightBot.ReportLog.Status | copyright_bot/index.js:36-38 | `/status` replies with the prefix followed by a number that `parseInt` reads back as the number of entries |
| CopyrightBot.ReportLog.Reports | copyright_bot/index.js:40-46 | the loop builds the header followed by each entry as a numbered line, and the "No reports yet!" fallback is never the reply |
| CopyrightBotProps.FlagIgnoresCase | copyright_bot/index.js:23-24 | a text is flagged exactly when its lower-cased form is |
| CopyrightBotProps.FlaggedInContext | copyright_bot/index.js:23-24 | a keyword in any case, anywhere in a text, inside a longer word too, flags it |
| CopyrightBotProps.LongerWordFlagged | copyright_bot/index.js:24 | every text starting with "steal" is flagged: there is no word-boundary check |
| CopyrightBotProps.CapitalisedKeywordFlagged | copyright_bot/index.js:23-24 | "COPYRIGHT" in capitals flags any text around it |
| CopyrightBotProps.ShortTextNotFlagged | copyright_bot/index.js:20-24 | a text shorter than five characters is never flagged |
| CopyrightBotProps.LogIsFlaggedHistory | copyright_bot/index.js:22-27 | after any sequence of messages the log is the old log followed by the entries of exactly the flagged messages, in order |
| CopyrightBotProps.FlaggedReportsCameFromFlaggedMessages | copyright_bot/index.js:24-26 | every entry holds a flagged text and is the entry of some message seen, and there are no more entries than messages |
| CopyrightBotProps.StatusCountsFlaggedMessages | copyright_bot/index.js:37 | after a sequence of messages `/status` shows the old count plus the number of flagged messages, and `parseInt` reads that number back from the reply |
| CopyrightBotProps.LineNumberReadsBack | copyright_bot/index.js:43 | `parseInt` of a listed line gives back the line's number |
| CopyrightBotProps.ReportsOfEmptyLog | copyright_bot/index.js:41-45 | with an empty log `/reports` shows only its header |
| CopyrightBotProps.ReportsAppend | copyright_bot/index.js:41-44 | one more entry adds exactly one line at the end of `/reports`, numbered after the others |
| CopyrightBotProps.ReportsListEntry | copyright_bot/index.js:42-44 | entry `i` is listed as line `i + 1`, between the lines of the entries before it and those after it |
| CopyrightBotProps.ReportsShowEntry | copyright_bot/index.js:42-44 | every entry's numbered line occurs in the `/reports` text, right after the lines of the entries before it |

## Left out

- The bot framework's wiring, including the order of dispatch between handlers, is not modelled. In both files a handler for every message (`'message'`, `'text'`) is registered before the command handlers and does not pass control on. The model treats each handler as reached for the updates it names.
- Persistence through lowdb (`db.read`, `db.write`) is not modelled: the table and the log live in memory. A failed write, and the crash it would cause, are not modelled.
- `/start`, `/help`, and the welcome and goodbye replies send only greetings and change no state.
- The bot token check and `bot.launch` are startup I/O.
- The clock is an input. `Math.floor(Date.now()/1000)` arrives as `now`, and `new Date().toISOString()` arrives as an opaque `date` string.
- `toLowerCase` is modelled for ASCII letters only. Non-ASCII case mappings are left out.
- Text.ParseDecimal: `parseInt` is modelled on integers. Floating-point rounding of numbers past 2^53 is left out, and so is the `Infinity` of huge digit runs.
- Display names (`first_name`) in the group bot's replies are left out. Each reply is modelled by its kind and its numbers.
- `getChatMember` is modelled by the member status it returns. The platform call itself, and its failure, are left out.
- The text of the console message for a failed kick in the message handler is left out. Only the fact that it is logged is modelled (`LogKickFailure`).
- `/unmute`, `/kick` and `/ban` hold no state. They are modelled inside `CommandStep` by the calls they make and the reply that follows, without methods of their own.
- A user entry of the group bot is reduced to its `warns` field, the only field the code ever stores.
- GroupBot.MessageStep: a failed `deleteMessage` is not modelled. The delete is awaited outside any `try`, so in the code a failure ends the handler before the warning is counted; the model always counts it.
- Handlers are modelled as atomic and a run as strictly sequential. In the code a handler awaits the database write between raising a count and testing it against `maxWarns`, so concurrently handled updates could interleave there; that interleaving is not modelled.
