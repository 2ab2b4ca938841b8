# Voice-to-calendar Telegram bot — a Dafny model

The bot takes a voice message and sends it to a speech-to-text service. It
gives the text to a Gemini model, which returns the events described in the
message as JSON. The bot creates those events in the user's Yandex calendar
over CalDAV and stores reminders, which a scheduler sends before each event
starts. Users configure their calendar account by writing their e-mail
address and app password to the bot in a chat message.

This project models the decision logic of that pipeline. Each external call is
a parameter of the model:

- the Gemini library is modelled by whether a model can be built for a name and what it answers;
- the Whisper HTTP endpoint by the reply to each POST;
- the CalDAV server by the calendar listing, event saving and search results;
- the database by maps and a table of notification rows;
- the date parser by a partial function;
- the clock by a value.

The modules follow the source files:

| module | file | what it holds |
|---|---|---|
| `Config` | config.py | database URL rewriting, the `NOTIFICATION_TIMES` list, the CalDAV URL, `validate` |
| `Transcription` | transcription.py | the retry loop of `_transcribe_audio` and the checks of `transcribe_voice` |
| `Nlu` | nlu_service.py | model priorities, the rotated attempt order, fallback with a sticky current model, fence stripping and event normalisation |
| `Credentials` | bot.py | `extract_credentials_from_text`, regular expressions included |
| `Bot` | bot.py | the calendar-service cache, credential saving, the `handle_text` setup transitions and the event loop of `handle_voice` |
| `Scheduler` | scheduler.py | `create_notifications` and the send-and-mark round of `check_and_send_notifications` |
| `Calendar` | calendar_service.py | connection state, `create_event` and `get_events` |

Shared helper modules:

- `Wrappers` holds `Option` and `Result`.
- `Text` holds Python's `strip`, `find`, `replace`, `split` and `join` on strings.
- `Time` holds datetimes with an optional fixed UTC offset. A missing offset is a naive datetime.
- `JsonValues` holds decoded JSON.

Code that mutates state is modelled with classes:

- `Nlu.NluService` keeps the current model.
- `Calendar.YandexCalendarService` keeps the client and the calendar.
- `Scheduler.NotificationStore` is the notification table.
- `Bot.BotState` keeps the pending e-mails, the stored accounts and the cached services.
- `Transcription.TranscriptionService` has the retry loop.

Each of their methods is proved against a function. The lemmas about that
function state what the source does; "## Left out" lists where they say less.

## Model

| member | source | states |
|---|---|---|
| Config.NormalizeDatabaseUrl | config.py:34-42 | a `postgresql://` or `postgresql+psycopg2://` prefix becomes `postgresql+asyncpg://` with the rest kept; any other URL is returned unchanged |
| Config.NormalizedHasNoRewrittenScheme | config.py:37-42 | a normalised URL starts with neither rewritten prefix |
| Config.NormalizeIdempotent | config.py:34-42 | normalising twice equals normalising once |
| Config.DefaultDatabaseUrlKept | config.py:44-45 | the default SQLite URL is kept as it is |
| Config.ParseInt | config.py:27 | `int(x)` yields a value only for a string that is not blank; `ParsePadded`, `ParseSigned`, `ParseLeadingZeros` and `ParseRejects` give its behaviour on ASCII numerals |
| Config.ParsePadded | config.py:27 | `int` of a decimal numeral with whitespace on either side is its value |
| Config.DigitsZeroPrefix | config.py:27 | zeros in front of a digit string leave its value unchanged |
| Config.ParseDigits | config.py:27 | `int` of a non-empty string of digits is the value of those digits |
| Config.ParseLeadingZeros | config.py:27 | `int` accepts leading zeros: zeros followed by the decimal numeral of n give n |
| Config.ParseSigned | config.py:27 | `int` of a numeral after a `-` or `+` sign, with whitespace around, is the negated or the plain value |
| Config.ParseRejects | config.py:27 | `int` fails on a stripped text with a non-digit after the optional sign, and on a bare sign |
| Config.DecimalString | config.py:27 | `str(n)` is a non-empty digit string whose value is `n` |
| Config.ParseDecimal | config.py:27 | `int(str(n)) == n` |
| Config.ParseInts | config.py:27 | the list comprehension succeeds exactly when every piece parses, with one value per piece in order; on failure it names a piece that does not parse |
| Config.ParseIntsAll | config.py:27 | pieces that all parse give exactly their values |
| Config.ParseNotificationTimes | config.py:27 | a success has one offset per comma-separated piece, each the value of its piece; a failure names a piece that does not parse |
| Config.ParseFormatNotificationTimes | config.py:27 | splitting offsets joined by commas and parsing them gives the offsets back |
| Config.DefaultNotificationTimesParse | config.py:27 | without the variable the offsets are [15, 60] |
| Config.CaldavUrl | config.py:24 | the URL is the CalDAV base, then the user name ("" when unset), then "/" |
| Config.Load | config.py:11-45 | loading fails exactly when `ParseNotificationTimes` of NOTIFICATION_TIMES (default "15,60") fails, with the same piece; otherwise the offsets are its result, the database URL is `NormalizeDatabaseUrl` of DATABASE_URL (default SQLite), the CalDAV URL is `CaldavUrl`, and the token, user, password and time zone are the variables read; offsets [15, 60] and the SQLite URL when unset, and no rewritten prefix survives |
| Config.MissingFrom | config.py:57 | the missing names are exactly the required names whose setting is unset or empty, in declared order |
| Config.Validate | config.py:48-59 | passes exactly when every required variable is set and non-empty; otherwise the error lists the missing ones, comma-separated, in declared order |
| Time.Localize | nlu_service.py:253-254 | localising keeps the wall-clock reading and attaches the zone |
| Time.Plus | calendar_service.py:69 | adding seconds keeps the zone and moves the wall clock by that amount |
| Text.TrimStartShape | bot.py:376 | stripping the front drops a prefix of removable characters and stops at one it keeps |
| Text.TrimEndShape | bot.py:376 | stripping the back drops a suffix of removable characters and stops at one it keeps |
| Text.Strip | bot.py:376 | `strip()` never lengthens a string; `StripIdempotent` and `StripPadded` state what it removes |
| Text.StripChar | bot.py:401 | `strip(c)` never lengthens a string and leaves no `c` at either end |
| Text.StripUnchanged | bot.py:376 | a string with no whitespace at either end is its own `strip()` |
| Text.TrimStartPadding | bot.py:376 | leading whitespace before a text that starts with a non-space is removed exactly |
| Text.TrimEndPadding | bot.py:376 | trailing whitespace after a text that ends with a non-space is removed exactly |
| Text.StripPadded | bot.py:376 | `strip()` of whitespace, a core that starts and ends with a non-space, and whitespace is the core |
| Text.StripIdempotent | transcription.py:81 | `strip()` leaves no whitespace at either end, and stripping twice equals stripping once |
| Text.FindFrom | config.py:38 | `find` returns the first occurrence at or after the start, or none when there is none |
| Text.Find | calendar_service.py:82 | `find` gives the first occurrence, and none only when the pattern never occurs |
| Text.ReplaceFirst | config.py:38 | `replace(pat, rep, 1)` on a string starting with `pat` swaps that prefix; a string without `pat` is unchanged |
| Text.ReplaceAll | calendar_service.py:82 | `replace` by a replacement no longer than the pattern never lengthens the string, and only puts in characters of the string or of the replacement |
| Text.ReplaceAllAbsent | calendar_service.py:82 | `replace` leaves a string without the pattern unchanged |
| Text.Split | config.py:27 | `split` always yields at least one piece |
| Text.Join | bot.py:413 | `join` starts with the first piece and ends with the last; `JoinSplit` and `SplitJoin` relate it to `split` |
| Text.JoinSplit | bot.py:413 | joining the pieces of a split with the same separator gives back the string |
| Text.SplitJoin | config.py:27 | splitting pieces joined by a character none of them contains gives back the pieces |
| Text.SplitLast | calendar_service.py:82 | the last piece of a one-character split is the part after the last separator: a suffix without the separator, preceded by it unless it is the whole string |
| Text.LowerAscii | bot.py:393 | upper-case ASCII letters are lowered; every other character is kept |
| Text.LowerAsciiString | bot.py:393 | each character is lowered in place and the length is kept |
| Nlu.ModelName | nlu_service.py:18-23 | every model name is a `gemini-` name |
| Nlu.Priority | nlu_service.py:152 | a model's index in the priority list |
| Nlu.RotateAt | nlu_service.py:153 | position k of `xs[i:] + xs[:i]` holds `xs[(i + k) mod n]` |
| Nlu.AttemptOrder | nlu_service.py:149-156 | the order has all four models, and with no current model it is the priority list |
| Nlu.AttemptOrderPermutation | nlu_service.py:149-156 | every attempt order is a permutation of the priority list |
| Nlu.AttemptOrderFromCurrent | nlu_service.py:149-153 | with a current model the order starts with it, continues cyclically through the priorities and never repeats a model |
| Nlu.AttemptOrderExample | nlu_service.py:149-153 | with gemini-1.5-pro current, the order is pro, gemini-pro, 2.5-flash, 1.5-flash |
| Nlu.FirstBuildable | nlu_service.py:32-55 | the first model in priority order that can be built; none exactly when no model can be built |
| Nlu.CandidateReply | nlu_service.py:160-189 | a success is the model's own answer; the current model is never rebuilt; a failure is the answer's error or the build error of a model other than the current one |
| Nlu.Fallback | nlu_service.py:158-192 | a success is the stripped reply of the model that becomes current, which answered; a failure keeps the current model and means that no model answers |
| Nlu.FallbackAnsweredBy | nlu_service.py:159-184 | when candidate i is the first to answer, its stripped reply is returned and it becomes current |
| Nlu.FallbackUnanswered | nlu_service.py:158-192 | when every candidate fails, the last error is raised and the current model is unchanged |
| Nlu.FallbackSucceedsIff | nlu_service.py:158-192 | a request succeeds exactly when some candidate answers |
| Nlu.FallbackPicksFirstSuccess | nlu_service.py:159-189 | every candidate tried before the winner failed |
| Nlu.FallbackKeepsWorkingModel | nlu_service.py:171-184 | a current model that answers is used and kept, with nothing switched |
| Nlu.StripFences | nlu_service.py:218-224 | the cleaned reply has no whitespace at either end |
| Nlu.StripFencesPlain | nlu_service.py:218-224 | a reply without fences is only stripped |
| Nlu.StripFencesJsonBlock | nlu_service.py:218-224 | a ```json block gives its stripped body |
| Nlu.StripFencesBareBlock | nlu_service.py:218-224 | a bare ``` block gives its stripped body |
| Nlu.StartTime | nlu_service.py:248-259 | the start is the parsed time if it is aware, the parsed time localised if it is naive, or now plus one day if parsing fails; the start is always aware |
| Nlu.NormalizeEvent | nlu_service.py:241-266 | existing fields are kept; the start becomes `StartTime`; action, duration and description get "create_event", 60 and null only when missing |
| Nlu.Objects | nlu_service.py:242-245 | the elements that are objects, never more than the elements; `ObjectsSingle` and `ObjectsAppend` give their order and multiplicity |
| Nlu.ObjectsMembers | nlu_service.py:242-245 | an object is kept exactly when it is an element |
| Nlu.ObjectsSingle | nlu_service.py:242-245 | one element gives its fields when it is an object and nothing otherwise |
| Nlu.ObjectsAppend | nlu_service.py:241-245 | the objects of a concatenation are those of each part, in order: kept objects keep their relative order and multiplicity |
| Nlu.NormalizeAll | nlu_service.py:240-266 | one normalised event per object element, in order |
| Nlu.InterpretReply | nlu_service.py:227-278 | success is a non-empty list of normalised events; a failure is invalid JSON, an unexpected shape or no events |
| Nlu.InterpretSingleObject | nlu_service.py:233-235 | an object becomes a one-event list |
| Nlu.InterpretArray | nlu_service.py:230-270 | an array gives its object elements normalised, in order, and is refused when it has none |
| Nlu.InterpretRefused | nlu_service.py:236-238 | invalid JSON, or JSON that is neither an object nor an array, is refused |
| Nlu.Extract | nlu_service.py:204-278 | fails for lack of a model exactly when there is no current model and none can be built; a success holds normalised events |
| Nlu.ExtractComposes | nlu_service.py:204-278 | with a model to start from, an extraction is `Fallback` from it: its failure is passed on, its reply is `InterpretReply`-ed, and its model is the one in use afterwards |
| Nlu.NluService.constructor | nlu_service.py:25-30 | a new service starts with the first model that can be built, or with none |
| Nlu.NluService.InitializeModel | nlu_service.py:32-55 | the kept model is the first one that can be built, or none |
| Nlu.NluService.EnsureModelInitialized | nlu_service.py:57-81 | a current model is kept; otherwise the first buildable one is taken; it fails exactly when there is still no model |
| Nlu.NluService.Attempt | nlu_service.py:160-189 | one candidate's reply is `CandidateReply`: a build failure of a model other than the current one, or its answer; a model that answers becomes the current one, and a failure changes nothing |
| Nlu.NluService.TryModelsWithFallback | nlu_service.py:138-192 | reply and new current model are those of `Fallback`; the models tried are a prefix of the attempt order, all of it on failure, ending with the winner on success |
| Nlu.NluService.ProcessEvents | nlu_service.py:240-266 | the loop computes `NormalizeAll` |
| Nlu.NluService.ParseReply | nlu_service.py:217-278 | the method computes `InterpretReply` |
| Nlu.NluService.ExtractEventInfo | nlu_service.py:194-281 | the outcome and the new current model are those of `Extract` |
| Transcription.AttemptStep | transcription.py:49-90 | an attempt is retried exactly when it is not the last one and its reply is a network error or a status of 500 or more, and then after `(attempt+1)*2` seconds; it succeeds exactly on a 200 reply with a `text` member, returning that member stripped, or "" when it is null; it gives up with a network error exactly on a client error, carrying its message |
| Transcription.RunFrom | transcription.py:47-95 | the loop makes at most the remaining number of requests |
| Transcription.RunFromCounts | transcription.py:49-95 | requests are made exactly when attempts remain, with one pause between consecutive requests |
| Transcription.RunFromWaits | transcription.py:49-90 | the pause after attempt `a+k` lasts `2(a+k+1)` seconds and follows a network or server error |
| Transcription.TranscribeSchedule | transcription.py:21-95 | at most `max_retries` POSTs, with pauses 2, 4, … each after a transient error |
| Transcription.RunFromEndsOnAnAttempt | transcription.py:49-95 | with an attempt left, the outcome is that of the last POST, which was not retried |
| Transcription.Transcribe | transcription.py:21-95 | at most `max_retries` requests are made, and a success needs at least one |
| Transcription.TranscribeWithoutAttempts | transcription.py:47-95 | with no attempt allowed, the generic failure is raised and no request is made |
| Transcription.TranscribeStripped | transcription.py:80-81 | a recognised text has no whitespace at either end |
| Transcription.TranscribeLastReply | transcription.py:80-90 | a recognised text is the stripped `text` member of the last reply, a 200, or "" for null; a network error that ends the run is the last reply's client error |
| Transcription.TranscribeClientErrorFinal | transcription.py:56-71 | a non-200 status below 500 raises at once, after one request and no pause |
| Transcription.TranscriptionService.constructor | transcription.py:15-18 | the size limit is 25 MiB |
| Transcription.TranscriptionService.Attempt | transcription.py:50-90 | one attempt's branches compute `AttemptStep` |
| Transcription.TranscriptionService.TranscribeAudio | transcription.py:21-95 | the loop's outcome and pauses are those of `Transcribe` |
| Transcription.TranscriptionService.TranscribeVoice | transcription.py:97-139 | the method computes `Voice` |
| Transcription.Voice | transcription.py:111-139 | a file over 25 MiB is refused exactly when it is larger than the limit; a success is non-empty and stripped; `VoiceOutcome` and `VoiceText` tie it to the retry loop |
| Transcription.VoiceOutcome | transcription.py:124-139 | within the limit: an empty transcript is "nothing recognised", a network error becomes a connection failure with its message, any other error is passed on, and a non-empty transcript is returned, each exactly |
| Transcription.VoiceText | transcription.py:80-81 | a transcript is the stripped `text` member of the last reply, a 200 |
| Transcription.VoiceConnectionFailed | transcription.py:83-87 | a connection failure carries the client error of the last POST |

| Transcription.VoiceFirstReply | transcription.py:111-132 | a file within the limit whose first POST succeeds yields that text stripped, or the "nothing recognised" error when it is empty |
| Transcription.VoiceNetworkDown | transcription.py:83-136 | a network error on every attempt gives a connection error, after three requests and pauses of 2 and 4 seconds |
| Credentials.RunEnd | bot.py:379 | the end of a run of a character class: the run stops at the end of the text or at a character outside the class |
| Credentials.RunEndAll | bot.py:379 | every character of the run belongs to the class |
| Credentials.RunEndExact | bot.py:379 | a run of the class that stops at a character outside it is the one found: the greedy repetition is maximal |
| Credentials.RunEndCovers | bot.py:379 | the run found covers every run of the class from the same start |
| Credentials.LastDot | bot.py:379 | a dot followed by at least two letters, which backtracking gives back to the top-level domain |
| Credentials.LastDotLast | bot.py:379 | every dot followed by two letters lies at or before the one found, so none is found only when there is none: the last one is taken, as backtracking from the greedy domain does |
| Credentials.LastDotExact | bot.py:379 | a dot followed by two letters with no such dot after it is the one found |
| Credentials.EmailMatchAt | bot.py:379 | a match found at a position has the shape `local@domain.tld`; `EmailMatchExact` gives its greedy extent |
| Credentials.EmailDomainFrom | bot.py:379 | the domain stage keeps the start and the `@` of the local stage |
| Credentials.EmailDomainShape | bot.py:379 | what the domain stage returns has the shape of an address |
| Credentials.EmailMatchExact | bot.py:379 | an address-shaped span whose top-level domain no letter follows, and whose domain run has no later dot followed by two letters, is exactly the match: the greedy extent |
| Credentials.EmailMatchSpan | bot.py:379 | the match is fixed by where the three scans stop |
| Credentials.EmailTopLevelEnd | bot.py:379 | a top-level domain that no letter follows is the whole run of letters after the dot |

| Credentials.EmailComplete | bot.py:379 | any text of the shape `local@domain.tld` is matched at its start: the matcher misses no address |
| Credentials.EmailScan | bot.py:379 | on an address-shaped text the local run ends at the `@` and the last dot of the domain run is found |
| Credentials.EmailSearchFrom | bot.py:391 | a result is the match of the address pattern at its start |
| Credentials.EmailSearchLeftmost | bot.py:391 | when a position matches, the search finds a match that starts at or before it |
| Credentials.EmailSearch | bot.py:391 | a found address is the match of the pattern at its start |
| Credentials.EmailSearchComplete | bot.py:391 | any address-shaped text in the message is found, or one that starts before it |
| Credentials.Upper | bot.py:397 | ASCII and Cyrillic lower-case letters are matched case-insensitively |
| Credentials.LastNonSpace | bot.py:382-383 | a non-whitespace position of the range, which ends the separators that `[:\s]+` gives back |
| Credentials.LastNonSpaceAfter | bot.py:382-383 | only whitespace follows the position found in the range, and the whole range is whitespace when none is found |
| Credentials.LastNonSpaceExact | bot.py:382-383 | a non-space character followed only by whitespace is the one found |
| Credentials.TailGroup | bot.py:382-384 | a captured password is non-empty, and the third pattern's group has at least 10 characters; `TailWordExact`, `TailWordNone` and `TailTokenExact` give the exact group |
| Credentials.TailGroupShape | bot.py:382-384 | a group has no whitespace, and the third pattern's group is made of token characters |
| Credentials.TailWordExact | bot.py:382-383 | with separators from the keyword to the last place where a word can start, the group is the whole non-space run from there |
| Credentials.TailWordNone | bot.py:382-383 | `[:\s]+([^\s\n]+)` fails after the keyword exactly when no separator run is followed by a non-space character |
| Credentials.TailTokenExact | bot.py:384 | after the optional separators, the group is the run of token characters when it has at least 10 of them, and there is no match otherwise |
| Credentials.FirstAlt | bot.py:382-383 | the alternative found occurs at the position and its tail matches |
| Credentials.FirstAltExact | bot.py:382-383 | the alternatives are tried in order: the first that matches with its tail is found |
| Credentials.FirstAltNone | bot.py:382-383 | no alternative is found exactly when none matches with its tail |
| Credentials.KeywordGroup | bot.py:381-385 | a group captured at a position is non-empty, with at least 10 characters for the third pattern |
| Credentials.KeywordGroupShape | bot.py:381-385 | a group captured at a position has the shape of its tail |
| Credentials.KeywordGroupFirst | bot.py:381-385 | the group is the tail's group after the first keyword, in the order written, that matches with its tail |
| Credentials.KeywordGroupNone | bot.py:381-385 | no group is captured at a position exactly when no keyword matches there with its tail |
| Credentials.SearchFrom | bot.py:397 | a captured group is non-empty |
| Credentials.Search | bot.py:397 | a captured group is non-empty |
| Credentials.SearchFromFirst | bot.py:397 | `re.search` returns the group at the leftmost position where the pattern matches |
| Credentials.SearchFromFound | bot.py:397 | a result of the search is the group captured at some position from the start on |
| Credentials.SearchFromNone | bot.py:397 | the search finds nothing when the pattern matches at no position |
| Credentials.SearchShape | bot.py:397 | a group the search returns has the shape of its tail |
| Credentials.CleanPassword | bot.py:399-401 | cleaning never lengthens the group and leaves no `'` at either end |
| Credentials.FromPatterns | bot.py:395-405 | a password taken from the patterns has at least 8 characters |
| Credentials.FromPatternsFirst | bot.py:396-405 | the patterns are tried in order: the first whose cleaned group has at least 8 characters gives the password, and shorter groups are dropped |
| Credentials.FromPatternsNone | bot.py:396-405 | no password comes from the patterns exactly when no pattern gives a cleaned group of at least 8 characters |
| Credentials.CleanPart | bot.py:416 | cleaning a piece never lengthens it and leaves nothing for another `strip()` |
| Credentials.FirstAppPart | bot.py:415-420 | a piece it returns is one that, once cleaned, looks like an app password |
| Credentials.FirstAppPartLeftmost | bot.py:415-420 | no piece before the one returned looks like an app password once cleaned, and none does when nothing is returned |
| Credentials.FromParts | bot.py:408-420 | a password found around the address looks like an app password |
| Credentials.PasswordIn | bot.py:395-425 | a returned password has at least 8 characters; the patterns' password wins; without one, the pieces around a found address are used; without an address, the whole text exactly when it looks like an app password |
| Credentials.PasswordInNoSpace | bot.py:395-425 | a returned password contains no whitespace |
| Credentials.Extract | bot.py:369-427 | an address is returned exactly when the search finds one in the stripped text; the password follows the precedence of `PasswordIn` and has at least 8 characters |
| Credentials.NoSpaceTrim | bot.py:401 | stripping a character keeps a string free of whitespace |
| Credentials.NoSpaceStrip | bot.py:399 | a string without whitespace is its own `strip()` |
| Credentials.NoSpaceClean | bot.py:399-401 | cleaning keeps a password free of whitespace |
| Credentials.FromPatternsNoSpace | bot.py:396-405 | a password taken from the patterns has no whitespace |
| Credentials.ExtractShape | bot.py:369-427 | the password has at least 8 characters and no whitespace; an address is found exactly when the pattern matches the stripped text, and it is the lower-cased match |
| Credentials.NoKeywordInToken | bot.py:381-385 | no pattern matches a text made only of token characters |
| Credentials.NoAltInToken | bot.py:381-385 | no keyword of a pattern matches, with its tail, in a text made only of token characters |
| Credentials.BareAppPassword | bot.py:421-425 | a message of token characters gives no address, and gives itself as the password exactly when it has at least 10 characters |
| Credentials.PasswordFromPatterns | bot.py:395-405 | the pattern loop computes `FromPatterns`, whose order is stated by `FromPatternsFirst` and `FromPatternsNone` |
| Credentials.PasswordFromParts | bot.py:415-420 | the loop over the pieces computes `FromParts` |
| Credentials.ExtractCredentials | bot.py:369-427 | the method computes `Extract`, with its address and password precedence |
| Bot.ServiceFor | bot.py:43-62 | a cached service is returned unchanged; otherwise the stored account, or the configured one, is connected and cached; "not configured" exactly when neither exists; a failure changes nothing |
| Bot.Saved | bot.py:64-75 | the account is stored first; the cached service is replaced only when it connects |
| Bot.SavedAndCleared | bot.py:453-464 | the account is stored; when it connects, the reply is the success reply, the pending address is dropped and the service cached; otherwise the reply is a save failure and nothing else changes |
| Bot.Transition | bot.py:440-507 | "not credentials" exactly when neither address nor password was read; an address alone becomes pending; a success reply reports the stored account, the length of its new password and a service cached for it, with nothing pending; "address missing" changes nothing |
| Bot.HandleTextResult | bot.py:430-507 | a password reported as saved has at least 8 characters; an address is kept as pending only when the message holds one; a message without credentials changes nothing |
| Bot.Minutes | bot.py:294 | `timedelta(minutes=…)` accepts exactly an integer, or a boolean as 1 or 0 |
| Bot.DescriptionArgument | bot.py:295 | a missing or null description passes None, a string passes its text, and anything else fails |
| Bot.Request | bot.py:291-296 | a request carries the event's string summary and its start; the duration is 60 when missing; a description comes from the event's own string; an event with a string summary and a start, and no duration or description, always gives a request |
| Bot.Creation | bot.py:289-316 | a created entry reports the request's summary, start and duration, and exists only when the calendar saved the event; no request, no creation |
| Bot.BotState.constructor | bot.py:40-41 | nothing pending, stored or cached |
| Bot.BotState.GetUserCalendarService | bot.py:43-62 | the new state and result are those of `ServiceFor` |
| Bot.BotState.SaveUserCredentials | bot.py:64-75 | the new state and result are those of `Saved` |
| Bot.BotState.HandleText | bot.py:430-507 | the new state and reply are those of `HandleTextResult` |
| Bot.BotState.DispatchEvent | bot.py:287-321 | one event gives the entry of `DispatchOne`, and its reminder rows are appended to the table |
| Bot.BotState.DispatchEvents | bot.py:286-321 | created events, errors and reminder rows are those of `Dispatch`, with the rows appended to the table |
| Bot.DispatchOne | bot.py:286-321 | each event gives exactly one entry; an action other than "create_event" gives a "not supported" error; only "create_event" creates |
| Bot.Dispatch | bot.py:286-321 | every event gives exactly one created entry or one error, and a failure does not stop the events after it |
| Bot.EmailOnlyIsPending | bot.py:443-452 | an address without a password is kept as pending and nothing is saved |
| Bot.EmailAndPasswordSaved | bot.py:453-464 | address and password are stored; once the service connects, the pending address is cleared |
| Bot.PasswordOnly | bot.py:465-499 | a password alone completes the pending address, or else updates the stored account's password, or else nothing changes and the address is asked for |
| Bot.NothingFound | bot.py:437-515 | a message with neither address nor password changes nothing |
| Bot.TransitionShape | bot.py:440-507 | a transition either leaves store and cache alone or saves one account for the writer; the save fails exactly when the account does not connect |
| Bot.TransitionOtherUsers | bot.py:440-507 | no other user's pending address, account or service changes |
| Bot.HandleTextKeepsPasswordsLong | bot.py:437-499 | every stored password stays at least 8 characters long |
| Bot.TransitionCache | bot.py:440-507 | cache and store disagree only after a save whose connection failed |
| Bot.ServiceForCache | bot.py:43-62 | getting a service keeps the cache in agreement with the store |
| Bot.DispatchAppend | bot.py:286-321 | dispatching a + b is dispatching a, then b: order is kept and one event's outcome does not depend on the others |
| Bot.DefaultDurationCreated | bot.py:287-316 | an event without a duration is created for 60 minutes and gets the reminders of its start |
| Calendar.ConnectResult | calendar_service.py:18-43 | connecting succeeds exactly with a user, a password and a non-empty calendar list, and then yields the first calendar; a failure carries the connection-error prefix |
| Calendar.DescriptionOrDefault | calendar_service.py:76 | the given description, or the default when it is None or empty |
| Calendar.EventFor | calendar_service.py:69-77 | end = start + duration minutes, in the same zone; the summary is kept and the description defaulted |
| Calendar.SaveInto | calendar_service.py:68-87 | the record exists exactly when the server saves the event, and it echoes the URL, summary, start and end |
| Calendar.CreateEventResult | calendar_service.py:45-91 | a created record echoes summary and start |
| Calendar.YandexCalendarService.Init | calendar_service.py:13-15 | no client and no calendar yet |
| Calendar.YandexCalendarService.Open | calendar_service.py:13-16 | construction succeeds exactly when connecting does, with the connection error otherwise |
| Calendar.YandexCalendarService.Connect | calendar_service.py:18-43 | the client is set as soon as the credentials are present; the calendar is set only on success |
| Calendar.YandexCalendarService.CreateEvent | calendar_service.py:45-91 | the result is that of `CreateEventResult`; a connected service keeps its client and calendar; an unconnected one takes the client once the credentials are present and the calendar only when the connection succeeds |
| Calendar.YandexCalendarService.GetEvents | calendar_service.py:93-124 | the result is that of `EventsResult`; a connected service keeps its client and calendar; an unconnected one takes the client once the credentials are present and the calendar only when the connection succeeds |
| Calendar.CreatedEventEnd | calendar_service.py:69-87 | a created event ends its duration after its start and echoes the summary and start |
| Calendar.CreateEventSaves | calendar_service.py:64-77 | the event is saved into the current calendar, or into the first calendar after connecting |
| Calendar.CreateEventUnconnected | calendar_service.py:64-91 | without a calendar, a failed connection raises its error and nothing is saved |
| Calendar.EventsResult | calendar_service.py:108-124 | events are returned only when there is a calendar or the connection succeeds |
| Calendar.EventsChoice | calendar_service.py:108-124 | without a calendar, a failed connection gives []; with a calendar, or after connecting to the first one, a range search when both bounds are given and all events otherwise, with [] when that call fails |
| Calendar.SplitAfterLast | calendar_service.py:82 | the last `/` piece of `a/b` is `b` when `b` has no `/` |
| Calendar.EventId | calendar_service.py:82 | the event id is no longer than the URL and contains no `/` |
| Calendar.SuffixAfterSeparator | calendar_service.py:82 | a separator-free suffix of `a/b` that follows a separator or is the whole text is exactly `b` |
| Calendar.ReplaceAllTrailing | calendar_service.py:82 | only the final `.ics` is removed when no other can occur |
| Calendar.EventIdOfIcsUrl | calendar_service.py:82 | the event id of `<collection>/<id>.ics` is `id` |
| Calendar.EventIdOfPlainUrl | calendar_service.py:82 | the event id of `<collection>/<name>` is `name` when the name has no `.ics` |
| Scheduler.Now | scheduler.py:39 | `datetime.now(tz)` is aware in `tz` at the current instant |
| Scheduler.ReminderTime | scheduler.py:25 | the reminder lies `m` minutes before the start, in its zone |
| Scheduler.InFuture | scheduler.py:28 | for an aware time, "after `datetime.now` in its zone" is "a later instant than now" |
| Scheduler.Reminders | scheduler.py:24-29 | at most one row per offset, each for the event, unsent and in the future; `RemindersSingle` and `RemindersAppend` give the order |
| Scheduler.RemindersSingle | scheduler.py:24-29 | one offset gives its reminder when its time is ahead, and nothing otherwise |
| Scheduler.RemindersAppend | scheduler.py:24-29 | the rows follow the order of the offsets, one per occurrence, repeated offsets included |

| Scheduler.NotificationStore.Add | scheduler.py:29 | one unsent row is appended |
| Scheduler.NotificationStore.MarkSent | scheduler.py:77 | the table becomes `MarkedSent` |
| Scheduler.MarkedSent | scheduler.py:77 | only row `id` becomes sent; nothing else changes |
| Scheduler.MarkedAll | scheduler.py:76-77 | marking keeps every row's event and time and never unmarks a sent row |
| Scheduler.CreateNotifications | scheduler.py:16-31 | the rows of `Reminders` are appended to the table |
| Scheduler.RemindersExact | scheduler.py:24-29 | a reminder is stored for an offset exactly when its time is still ahead |
| Scheduler.RemindersTimes | scheduler.py:24-25 | every stored reminder lies one of the offsets before the start |
| Scheduler.RemindersNoneAfterStart | scheduler.py:27-29 | an event that has already started gets no reminder for non-negative offsets |
| Scheduler.RemindersDefaultOffsets | scheduler.py:24-29 | with offsets 15 and 60, an event 90 minutes ahead gets both reminders and one 30 minutes ahead only the first |
| Scheduler.QueryBounds | scheduler.py:39-42 | the query covers now to now plus 2 minutes |
| Scheduler.EventTime | scheduler.py:51-59 | a datetime start is kept when aware and put in the configured zone when naive; a text start fails exactly when it does not parse; the result is aware |
| Scheduler.TruncatedDiv | scheduler.py:61 | `int(n / d)` rounds towards zero |
| Scheduler.MinutesUntil | scheduler.py:60-61 | never negative; the whole minutes until the start; 0 within the last minute or after it |
| Scheduler.ReminderFor | scheduler.py:60-68 | the minutes shown are never negative, and 0 within the last minute before the start or after it |
| Scheduler.Delivered | scheduler.py:44-82 | at most one delivered id per due row |
| Scheduler.CheckAndSend | scheduler.py:34-85 | after a round the table is the old one with every delivered row marked sent |
| Scheduler.DeliveredWereSent | scheduler.py:70-77 | a row is marked only after its reminder was delivered |
| Scheduler.DeliveryFailureContinues | scheduler.py:70-82 | a failed send does not stop the round: every later delivery is still marked |
| Scheduler.UnreadableStartStops | scheduler.py:44-85 | a start that does not parse ends the round, so nothing after it is sent |
| Scheduler.MarkedAllSent | scheduler.py:70-82 | after a round a row is sent exactly when it was sent before or was delivered |

## Left out

- Network calls, the Telegram API, the database, asyncio, `run_in_executor` and sleeping are not modelled. Their results are parameters, and pauses are returned as a list of seconds.
- pytz zones are replaced by fixed UTC offsets, so daylight saving changes are not modelled. dateutil parsing is a partial function passed in.
- The Gemini prompt text (`_create_prompt`) is not modelled; it is only a template. The request's prompt is implied by the `generate` oracle.
- Message texts, `strftime` formatting, logging and the float size formatting in error messages are not modelled. Replies to the user are datatypes.
- JSON numbers are integers. A fractional `duration_minutes` is not modelled.
- Bot.Minutes: a duration that is neither an integer nor a boolean makes the creation fail, as `timedelta` raising would. A non-string summary or description also counts as a failed creation.
- Bot.BotState.DispatchEvents: requires every event to have an "action". `extract_event_info` always adds one, so the KeyError path of a missing action is not modelled.
- Config.ParseInt: does not accept the underscores or non-ASCII digits that Python's `int` accepts.
- Credentials.Upper: case-insensitive matching covers ASCII and the Cyrillic letters а-я only. Non-ASCII letters that IGNORECASE also matches against `[a-zA-Z]` (the Kelvin sign, dotless i, long s) are not modelled.
- The `handle_voice` steps before the event loop (download, transcription, error classification) and the `/start`, `/help`, `/setup` and `/list` handlers are not modelled.
- `Config.OPENAI_API_KEY` is read by transcription.py:16 but not defined in config.py. The API key is not part of the model.
- bot.py passes credentials to `YandexCalendarService` and calls `reconnect`, neither of which calendar_service.py provides. Building or rebuilding a user's service is the oracle `connects`, and the cache remembers the account it was built for.
- Transcription: the form data re-sent on a retry is assumed to be intact. A `text` member that is not a string is not modelled.
- Nlu.StartTime and Nlu.NormalizeAll: one `now` is used for every event. nlu_service.py:258 reads the clock again for each event whose date does not parse, so events normalised across a clock tick are not modelled.
- Text.Strip: its own contract states only the length. What it removes is stated by StripIdempotent and StripPadded, so that this fact is not in scope at every use of `strip()`.
- Credentials.SearchFrom and Credentials.KeywordGroup: their own contracts state only that a group is non-empty. The leftmost-position and first-keyword order is stated by SearchFromFirst, SearchFromNone, KeywordGroupFirst and KeywordGroupNone.
- Scheduler.CreateNotifications: the clock is read once per call. The source reads it again for every offset, so a reminder time that passes while the loop runs is not modelled.
- Database write failures are not modelled.
- Scheduler: the query for due reminders is a parameter, since its database implementation is not part of this model.
- The model names are a datatype of the four listed models. A current name outside the list cannot occur, so the index fallback of 0 is not needed.
