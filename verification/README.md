# Kharazmichi bot: a Dafny model of its decision logic

Kharazmichi is a Telegram assistant for students of Kharazmi University. A student registers with
`/login <student code>`. After that they can send text or voice messages, up to a daily quota. A
language model answers each message. It may call two tools: `search_knowledge`, a vector search
over documents loaded into a knowledge base, and `send_location`, which finds a place's
coordinates in that knowledge base so that the bot can send a map pin.

This project models the deterministic part of that system as pure Dafny functions over immutable
data, and proves what the code promises about it. Every external service is a parameter:

- the Supabase tables are sequences and maps, and each store call has a boolean "fails" flag;
- OpenAI's chat model, the embedder and the `match_knowledge` similarity search are functions
  passed in. A call that raises is one that returns `None`;
- Telegram output is the list of actions the bot takes;
- the clock is an integer number of seconds since the Unix epoch.

One module per component, one file each:

| file | module | models |
|---|---|---|
| `wrappers.dfy` | `Wrappers` | `Option` and `Result` |
| `strings.dfy` | `Strings` | the Python string primitives the code relies on: `str.strip`, `str.split()`, `str.split(sep)`, `str.join`, `str()` on integers, and `str.isdigit` and `int()` restricted to ASCII, Arabic-Indic and Persian digits |
| `slices.dfy` | `Slices` | `s[:n]` and `s[-n:]` |
| `config.dfy` | `Config` | settings bounds, `get_admin_ids`, `is_webhook_mode` |
| `chunker.dfy` | `Chunker` | `KnowledgeLoader.chunk_text` |
| `users.dfy` | `Users` | `UserRepository` |
| `auth.dfy` | `Auth` | `AuthService` |
| `usage.dfy` | `Usage` | `UsageLogRepository` |
| `ratelimiter.dfy` | `RateLimiter` | `RateLimiter` |
| `conversation.dfy` | `Conversation` | `ConversationRepository` |
| `knowledge.dfy` | `Knowledge` | `KnowledgeRepository` and `KnowledgeBaseService` |
| `coordinates.dfy` | `Coordinates` | `AIAgent._extract_coordinates`, including the regular-expression search it performs |
| `agent.dfy` | `Agent` | `AIAgent.chat`, `_search_knowledge`, `_get_location` |
| `handlers.dfy` | `Handlers` | `MessageHandlers._process_message` and `handle_voice_message` |

Highlights of what is proved:

- The chunker never loses, reorders or duplicates a word. Every chunk is non-empty and stripped,
  and fits the budget unless it is one over-long word. A paragraph that fits is never split.
- `format_context` keeps a prefix of the results and cuts at most the last one. Its output is at
  most three characters over the budget.
- Registration preserves "one row per Telegram id, one row per student code" across any sequence
  of attempts whose lookups succeed.
- With a working store, a user never gets more than the daily limit of messages logged in a day.
  Once the limit is reached, every later message that day is rejected.
- The agent makes one or two model calls. A location it returns comes from the last
  `send_location` call and lies in the Iran bounding box. A raising tool call discards everything.
- A coordinate record in the knowledge base's format extracts to exactly its two numbers whenever
  they lie in the box.
- The handlers run the registration gate, then the quota gate, then the model. With a working
  store, every model use is counted against the quota. A failed usage insert is swallowed, so the
  message is still answered without being counted.

## Model

| member | source | states |
|---|---|---|
| Config.LoadSettings | kharazmichi-bot/src/config.py:42-43 | settings load exactly when the daily limit is in 1..1000 and the memory size in 1..50; the loaded fields are the given ones; an out-of-range limit is the error reported |
| Config.IsWebhookMode | kharazmichi-bot/src/config.py:60-63 | webhook mode holds exactly when a non-empty webhook URL is configured |
| Config.NonBlank | kharazmichi-bot/src/config.py:58 | every segment kept is non-blank and every non-blank segment is kept; which segments, in which order and how often, is fixed by `Config.NonBlankOne` and `Config.NonBlankAppend` together |
| Config.NonBlankAppend | kharazmichi-bot/src/config.py:58 | filtering a list split in two is filtering each half, one after the other; with `Config.NonBlankOne` this makes the kept segments exactly the non-blank input segments, each once, in input order |
| Config.NonBlankOne | kharazmichi-bot/src/config.py:58 | a single segment is kept, unchanged, exactly when it is not blank, and otherwise dropped |
| Config.ParseAll | kharazmichi-bot/src/config.py:58 | on success, one id per segment, in order, each the integer the stripped segment spells; on failure, the reported segment is the first one that is not an integer |
| Config.GetAdminIds | kharazmichi-bot/src/config.py:54-57 | an unset or whitespace-only setting gives no admins |
| Config.GetAdminIdsParsed | kharazmichi-bot/src/config.py:54-58 | a non-blank setting gives ids exactly when every non-blank comma-separated segment is an integer once stripped, and then one id per such segment, in order, each the integer its segment spells |
| Config.BadSegmentRaises | kharazmichi-bot/src/config.py:58 | a non-blank segment that is not an integer makes the whole setting an error, not a skipped entry |
| Config.AdminIdsRoundTrip | kharazmichi-bot/src/config.py:54-58 | any list of ids written comma-separated parses back to that list |
| Chunker.ChunkText | kharazmichi-bot/scripts/load_knowledge.py:47-99 | blank text gives no chunks; every chunk's metadata is exactly `{"source": source}`; every chunk is non-empty, stripped, and within the budget unless it is a single word; the chunks' words, in order, are the words of the text, so nothing overlaps and nothing is lost |
| Chunker.ShortParagraphKept | kharazmichi-bot/scripts/load_knowledge.py:60-90 | a paragraph no longer than the budget appears whole inside one chunk |
| Chunker.ChunkContentsFacts | kharazmichi-bot/scripts/load_knowledge.py:51-97 | the emitted texts are well formed and hold exactly the document's words |
| Users.GetByTelegramId | kharazmichi-bot/src/database/repositories.py:31-43 | a user is returned exactly when the store works and has a row with the id; the user returned is such a row |
| Users.GetByStudentCode | kharazmichi-bot/src/database/repositories.py:45-57 | a user is returned exactly when the store works and has a row with the code; the user returned is such a row |
| Users.Exists | kharazmichi-bot/src/database/repositories.py:74-77 | a user exists exactly when the store works and has a row with the id; a failed lookup reads as "not registered" |
| Auth.IsAuthenticated | kharazmichi-bot/src/services/auth.py:19-21 | authenticated exactly when a user row exists for the id and the lookup succeeds |
| Auth.ParseLoginCommand | kharazmichi-bot/src/services/auth.py:96-109 | a code is returned exactly when the text has at least two whitespace-separated words; it is the second word, non-empty and free of whitespace |
| Auth.LoginRoundTrip | kharazmichi-bot/src/services/auth.py:96-109 | `/login <code>` gives back the code for any non-empty code without whitespace |
| Auth.ValidateStudentCode | kharazmichi-bot/src/services/auth.py:70-94 | the checks run in order: "missing" exactly for the empty string; "not digits" exactly for a non-empty code whose stripped form is not all digits; "too short" and "too long" exactly for all-digit stripped codes under 5 or over 15 characters; accepted exactly when the stripped code is all digits with length in 5..15 |
| Auth.BlankCodeIsNotDigits | kharazmichi-bot/src/services/auth.py:77-85 | a whitespace-only code gets the "digits only" verdict, not the "missing" one |
| Auth.PersianDigitsAccepted | kharazmichi-bot/src/services/auth.py:84-94 | a ten-digit code in Persian digits is accepted, because `isdigit` accepts them |
| Auth.RegisterUser | kharazmichi-bot/src/services/auth.py:27-68 | a known id gives "already registered" and no change; otherwise a taken code gives "code taken" and no change, before any validation; when both lookups find nothing, an invalid code is rejected with the validator's verdict and a failed insert reports the failure, both without change; success happens exactly when both lookups find nothing, the code is valid and the insert works, and then exactly one row with the given id and code is added |
| Auth.RegisterKeepsUnique | kharazmichi-bot/src/services/auth.py:41-63 | with working lookups, one registration keeps one row per Telegram id and one per student code |
| Auth.RegisterAllKeepsUnique | kharazmichi-bot/src/services/auth.py:41-63 | the same uniqueness holds after any sequence of registrations whose lookups work |
| Auth.RegisterAll | kharazmichi-bot/src/services/auth.py:27-68 | over any sequence of registrations the table only grows: the old rows stay in place, unchanged, and at most one row is added per attempt |
| Usage.DayStart | kharazmichi-bot/src/database/repositories.py:90-93 | the day start is a multiple of 86400 at most a day before the current time |
| Usage.CountToday | kharazmichi-bot/src/database/repositories.py:95-103 | the count is the number of the user's records stamped at or after today's 00:00 UTC |
| Usage.GetTodayCount | kharazmichi-bot/src/database/repositories.py:87-106 | a store failure counts as zero, so the limiter fails open; otherwise the count of today's records of the user |
| Usage.Remaining | kharazmichi-bot/src/database/repositories.py:127-130 | the remaining quota is never negative, tops the count up to the limit while under it, and is zero at or over it |
| Usage.IsRateLimited | kharazmichi-bot/src/database/repositories.py:122-130 | a user is limited exactly when nothing remains of the quota; a user who is not limited has room for at least one more message |
| Usage.LogUsage | kharazmichi-bot/src/database/repositories.py:108-120 | the record is appended at the end, or the log is unchanged when the insert fails |
| Usage.CountAppend | kharazmichi-bot/src/database/repositories.py:95-103 | appending records never lowers a count |
| Usage.CountSnocNow | kharazmichi-bot/src/database/repositories.py:95-103 | a record the user logs now raises their count now by exactly one |
| Usage.CountSnocOther | kharazmichi-bot/src/database/repositories.py:95-103 | another user's record leaves the count unchanged |
| Usage.SameDayCount | kharazmichi-bot/src/database/repositories.py:90-103 | two instants of one UTC day see the same count |
| RateLimiter.LoggedText | kharazmichi-bot/src/services/rate_limiter.py:47 | text is stored exactly when the message is present and non-empty; the stored text is a prefix of the message that is either exactly 500 characters long or the whole message, and the whole message whenever it is that short |
| RateLimiter.CheckAndLog | kharazmichi-bot/src/services/rate_limiter.py:21-54 | rejected exactly when today's count reaches the limit, with the quota reply, 0 remaining and nothing logged; allowed with an empty message, the record logged with the truncated text, and the remaining quota recounted after logging, even if logging failed |
| RateLimiter.AllowedConsumesOne | kharazmichi-bot/src/services/rate_limiter.py:44-54 | with a working store, an allowed message appends one record and the remaining quota plus the earlier count is the limit less one |
| RateLimiter.GetStatus | kharazmichi-bot/src/services/rate_limiter.py:56-65 | reports today's count and `max(0, limit - count)`; the log is not an output, so nothing is written |
| RateLimiter.SaturatedStaysRejected | kharazmichi-bot/src/services/rate_limiter.py:33-41 | once the user has the limit's worth of records today, every later check that day is rejected and logs nothing, whatever was appended meanwhile |
| RateLimiter.CheckStepBounded | kharazmichi-bot/src/services/rate_limiter.py:33-54 | one check during the day keeps the user's count for the day within the limit |
| RateLimiter.CheckAllBounded | kharazmichi-bot/src/services/rate_limiter.py:33-54 | any number of checks during one day never log more than the limit for the user |
| RateLimiter.CheckAll | kharazmichi-bot/src/services/rate_limiter.py:21-54 | a run of checks only appends to the log, at most one record per check, and every record it adds is the checking user's |
| Conversation.Recent | kharazmichi-bot/src/database/repositories.py:163 | the kept messages are the last `2 * memory` in order, or all of them when there are fewer |
| Conversation.GetMessages | kharazmichi-bot/src/database/repositories.py:140-153 | the stored history, or none when there is no row or the read fails |
| Conversation.SaveMessages | kharazmichi-bot/src/database/repositories.py:155-179 | on success the user's history is the trimmed list; other users' histories are untouched; a failed write changes nothing |
| Conversation.AddMessage | kharazmichi-bot/src/database/repositories.py:181-190 | the add succeeds exactly when the write does; then the user's history ends with the new message and holds at most `2 * memory` messages; a failed write changes nothing |
| Conversation.AddMessageLeavesOthers | kharazmichi-bot/src/database/repositories.py:181-190 | adding a message never creates, removes or changes another user's history |
| Conversation.AddMessageKeepsRecent | kharazmichi-bot/src/database/repositories.py:181-190 | after a successful add the new message is last, at most `2 * memory` messages are kept, and they are the tail of the old history plus the new message; a failed read loses the old history |
| Conversation.RecentIdempotent | kharazmichi-bot/src/database/repositories.py:163 | trimming a trimmed history changes nothing |
| Conversation.ZeroMemoryWouldKeepAll | kharazmichi-bot/src/config.py:43 | a memory size of 0 would keep the whole history, which is why the size must be at least 1 |
| Knowledge.MapRows | kharazmichi-bot/src/database/repositories.py:229-237 | one result per row, in order |
| Knowledge.RepositorySearch | kharazmichi-bot/src/database/repositories.py:211-241 | a raised call or a row lacking a key gives no results; otherwise each row maps in order to its content, its similarity and its metadata, with missing metadata as `{}` |
| Knowledge.SearchKnowledgeBase | kharazmichi-bot/src/services/knowledge_base.py:27-63 | without an embedding the store is not called and there are no results; otherwise exactly one store call with the limit and threshold as given, and its results unchanged |
| Knowledge.AddDocument | kharazmichi-bot/src/services/knowledge_base.py:77-108 | success exactly when the embedding is non-empty and the insert works; then exactly one row is added, with the content, its embedding and the metadata or `{}`; otherwise the table is unchanged |
| Knowledge.RowsWithIdZero | kharazmichi-bot/src/database/repositories.py:264 | the rows left are exactly the rows whose id is 0 |
| Knowledge.ClearAll | kharazmichi-bot/src/database/repositories.py:261-268 | success exactly when the store works; then the rows left are exactly the old rows with id 0; on failure nothing changes |
| Knowledge.ClearAllEmpties | kharazmichi-bot/src/database/repositories.py:261-268 | with positive row ids, clearing leaves an empty table |
| Knowledge.Parts | kharazmichi-bot/src/services/knowledge_base.py:135-141 | one part per result, in order |
| Knowledge.PartLabelled | kharazmichi-bot/src/services/knowledge_base.py:136-141 | a part ends with the stripped content and is longer than it exactly when the metadata names a non-empty source, in which case it starts with the source label |
| Knowledge.Budgeted | kharazmichi-bot/src/services/knowledge_base.py:143-152 | the loop keeps at most one part per result; which parts it keeps is stated by `Knowledge.BudgetedCut` and `Knowledge.BudgetedSpec` |
| Knowledge.FitCountSpec | kharazmichi-bot/src/services/knowledge_base.py:143-147 | the parts counted as fitting whole are those that fit after the charges (length plus 10) of the parts before them, the next part does not fit, and the budget left is the maximum less the total so far less those charges |
| Knowledge.BudgetedCut | kharazmichi-bot/src/services/knowledge_base.py:143-152 | the loop keeps exactly the parts that fit whole, in order, followed by the cut part of the first one that does not fit, if any |
| Knowledge.BudgetedSpec | kharazmichi-bot/src/services/knowledge_base.py:143-152 | every part kept whole fits after the charges of the parts before it; the first part that does not fit is kept cut to the remaining budget with "..." exactly when more than 100 characters remain, and no part follows it |
| Knowledge.BudgetedPrefix | kharazmichi-bot/src/services/knowledge_base.py:143-152 | the parts kept are a prefix of the parts; only the last may be cut, and a cut part is more than 100 characters of its part followed by "..." |
| Knowledge.BudgetedLength | kharazmichi-bot/src/services/knowledge_base.py:143-154 | the joined parts never exceed the remaining budget by more than 3, because each part's charge of 10 covers the 7-character separator |
| Knowledge.FormatContext | kharazmichi-bot/src/services/knowledge_base.py:114-154 | no results give the empty context; any context is empty or at most `max_length + 3` characters |
| Knowledge.AllFit | kharazmichi-bot/src/services/knowledge_base.py:143-152 | when the whole charge fits the budget, every part is kept whole |
| Knowledge.FormatContextAllFit | kharazmichi-bot/src/services/knowledge_base.py:129-154 | results that fit the budget all appear, in order, joined by the separator |
| Coordinates.NumberAtIff | kharazmichi-bot/src/services/ai_agent.py:253-254 | the capture `-?\d+\.?\d*` at a position is a number exactly when the text there spells it and cannot extend it |
| Coordinates.NumberRoundTrip | kharazmichi-bot/src/services/ai_agent.py:253-254 | a well-formed number written at a position and not followed by more of it is read back as itself |
| Coordinates.FirstMatch | kharazmichi-bot/src/services/ai_agent.py:253-254 | the match found is the leftmost position where the pattern matches, and none is found only when it matches nowhere |
| Coordinates.Search | kharazmichi-bot/src/services/ai_agent.py:253-254 | `re.search` succeeds exactly when the pattern matches somewhere, and captures the leftmost match |
| Coordinates.MatchAtLine | kharazmichi-bot/src/services/ai_agent.py:253-254 | tag, colon-free text, colon, whitespace and a number form a match capturing that number |
| Coordinates.ExtractCoordinates | kharazmichi-bot/src/services/ai_agent.py:250-266 | a location is returned exactly when both tags are followed by numbers whose values lie in the box, bounds included; it holds those values, so an out-of-box pair is no location rather than an error |
| Coordinates.RecordLatitude | kharazmichi-bot/src/services/ai_agent.py:253 | a stored record's latitude line is the latitude search's capture |
| Coordinates.RecordLongitude | kharazmichi-bot/src/services/ai_agent.py:254 | a stored record's longitude line is the longitude search's capture; the tag does not occur earlier |
| Coordinates.RecordCoordinates | kharazmichi-bot/src/services/ai_agent.py:250-266 | a record of two coordinate lines extracts to its two numbers exactly when they lie in the box |
| Agent.BuildPrompt | kharazmichi-bot/src/services/ai_agent.py:148-159 | the prompt is the system prompt, then the last three history entries at most, each with its role or "user" and the first 300 characters of its content (the whole content when shorter), then the user's message |
| Agent.OlderHistoryIgnored | kharazmichi-bot/src/services/ai_agent.py:152-157 | history before the last three entries does not affect the prompt |
| Agent.SearchToolSpec | kharazmichi-bot/src/services/ai_agent.py:225-237 | the output is the "not found" sentinel exactly when the search finds nothing; otherwise the result blocks joined by `"\n---\n"`, the first result's block leading |
| Agent.SearchTool | kharazmichi-bot/src/services/ai_agent.py:225-237 | the output is the "not found" sentinel exactly when the search finds nothing |
| Agent.FirstSome | kharazmichi-bot/src/services/ai_agent.py:243-248 | a value is found exactly when some element yields one, and it is the first such element's |
| Agent.GetLocationSpec | kharazmichi-bot/src/services/ai_agent.py:239-248 | a location is found exactly when some result's content has extractable coordinates; it is the first such result's and lies in the box |
| Agent.GetLocation | kharazmichi-bot/src/services/ai_agent.py:239-248 | a location found lies in the Iran bounding box, 25–40°N and 44–64°E |
| Agent.FirstLocationOfRecord | kharazmichi-bot/src/services/ai_agent.py:239-266 | a coordinate record in the box, preceded only by results without coordinates, gives that record's location |
| Agent.RunToolSpec | kharazmichi-bot/src/services/ai_agent.py:179-197 | a tool call raises exactly when its arguments are not JSON or its tool's key cannot be read from them; an unknown tool is skipped whatever JSON its arguments hold; a search call's output is the search tool's answer to the query read from its arguments; a location call's output is the location's JSON, or the "no coordinates" text when there is none |
| Agent.UnknownToolOtherJsonSkipped | kharazmichi-bot/src/services/ai_agent.py:179-197 | an unknown tool whose arguments are JSON but not an object, such as a list, is skipped rather than raising |
| Agent.RunTool | kharazmichi-bot/src/services/ai_agent.py:179-197 | arguments that are not JSON raise; a call that does not raise is skipped exactly when its tool is unknown; a search output is the search tool's answer to the query read from the call's arguments, and a lookup comes from the location tool |
| Agent.LastLookupCons | kharazmichi-bot/src/services/ai_agent.py:191-196 | a later `send_location` call's result, even `None`, overrides an earlier one |
| Agent.RunToolsSpec | kharazmichi-bot/src/services/ai_agent.py:179-203 | the loop raises exactly when some call raises; otherwise the outputs are the earlier ones followed by the outputs of all the calls, in call order, one per call that produces one, and the location is the last lookup's |
| Agent.RunTools | kharazmichi-bot/src/services/ai_agent.py:179-197 | when no call raises, the outputs gathered are the earlier ones followed by those of all the calls, in call order |
| Agent.OutputsOfLength | kharazmichi-bot/src/services/ai_agent.py:179-197 | there is one output per call that produces one |
| Agent.OutputsOfAt | kharazmichi-bot/src/services/ai_agent.py:179-197 | each call that produces an output finds it, with the call's id and the tool's output, right after the outputs of the calls before it |
| Agent.ProducedKnown | kharazmichi-bot/src/services/ai_agent.py:183-197 | when no call raises, the outputs are exactly one per `search_knowledge` or `send_location` call |
| Agent.LookupInBox | kharazmichi-bot/src/services/ai_agent.py:191-196 | any location a lookup returns lies in the box |
| Agent.RunToolsLocation | kharazmichi-bot/src/services/ai_agent.py:179-203 | the location left by the tool loop lies in the box |
| Agent.AnswerText | kharazmichi-bot/src/services/ai_agent.py:213-217 | the answer is never empty: the model's text when it has some, the fallback otherwise |
| Agent.Respond | kharazmichi-bot/src/services/ai_agent.py:161-223 | the answer is never empty; there are one or two model calls, the first with the prompt and the tools, the second without tools; when the first call raises, the answer is the apology with no location and no second call; a location is returned only after two calls and lies in the box |
| Agent.Chat | kharazmichi-bot/src/services/ai_agent.py:146-223 | the first model call offers the tools, starts with the system prompt and ends with the user's message; the answer is never empty |
| Agent.ChatWithoutHistory | kharazmichi-bot/src/services/ai_agent.py:148-159 | with no history the first model call carries exactly the system prompt and the user's message |
| Agent.RespondDirect | kharazmichi-bot/src/services/ai_agent.py:215-219 | a reply without tool calls means one model call, its text or the fallback, and no location |
| Agent.RespondSecondRequest | kharazmichi-bot/src/services/ai_agent.py:175-211 | a second call is made exactly when the model asked for tools and none of them raised |
| Agent.RespondSecondMessages | kharazmichi-bot/src/services/ai_agent.py:199-211 | the second call carries the first call's messages, the model's message, and one output per known tool call |
| Agent.RespondSecondOutputs | kharazmichi-bot/src/services/ai_agent.py:181-211 | the second call's messages are exactly the first call's messages, the model's message, and the outputs of the tool calls in call order |
| Agent.RespondFinal | kharazmichi-bot/src/services/ai_agent.py:205-223 | after a second call the answer is its text or the fallback, and the location is the last lookup's; if that call raises, the apology and no location |
| Agent.RespondLocation | kharazmichi-bot/src/services/ai_agent.py:191-219 | a returned location is the last lookup's, and only when both model calls succeeded |
| Agent.RespondToolRaises | kharazmichi-bot/src/services/ai_agent.py:179-223 | a tool call that raises gives the apology, no location and no second call, even after an earlier lookup found a location |
| Handlers.QuotaNote | kharazmichi-bot/src/bot/handlers.py:163-165 | the low-quota warning is added exactly when one to five messages remain |
| Handlers.LocationActions | kharazmichi-bot/src/bot/handlers.py:170-177 | a pin is sent exactly when there is a location, at its coordinates |
| Handlers.AnswerShape | kharazmichi-bot/src/bot/handlers.py:161-177 | an answer is one message led by the assistant's text, then a pin exactly when there is a location |
| Handlers.ProcessMessage | kharazmichi-bot/src/bot/handlers.py:126-183 | an unregistered user gets only the not-registered reply, with no quota check and no model call; the model is called exactly when the user is registered and under the quota; an answer starts with the typing indicator, then the text |
| Handlers.ProcessAnswered | kharazmichi-bot/src/bot/handlers.py:143-177 | an allowed message is logged, then answered with one message: the assistant's text, with the warning exactly when one to five remain, followed by a pin exactly when a location was returned |
| Handlers.ProcessWithoutHistory | kharazmichi-bot/src/bot/handlers.py:158-161 | an allowed message is sent to the model alone: the first request holds the system prompt and the user's text, and no conversation history |
| Handlers.ProcessRejected | kharazmichi-bot/src/bot/handlers.py:143-150 | a user over the quota gets only the quota reply; nothing is logged and the model is not called |
| Handlers.ProcessCountsModelUse | kharazmichi-bot/src/bot/handlers.py:142-161 | with a working store, a registered user under the quota reaches the model, and that message adds exactly one record to the user's count for the day, still within the limit |
| Handlers.HandleVoice | kharazmichi-bot/src/bot/handlers.py:51-124 | an unregistered user gets only the not-registered reply; the model is called exactly when the user is registered, under the quota, the download works and the transcription is non-empty |
| Handlers.VoiceRejected | kharazmichi-bot/src/bot/handlers.py:69-77 | a registered user over the quota who sends a voice message gets only the quota reply; nothing is logged, nothing is downloaded and the model is not called |
| Handlers.VoiceLogsPlaceholder | kharazmichi-bot/src/bot/handlers.py:69-80 | an allowed voice message is charged before transcription with the placeholder text, whatever is heard, and the "processing" message comes first |
| Handlers.VoiceAnswersHeard | kharazmichi-bot/src/bot/handlers.py:98-117 | the "processing" message is deleted, the heard text is shown, then the assistant's answer to exactly that text follows, with no quota warning |
| Handlers.VoiceAsksHeard | kharazmichi-bot/src/bot/handlers.py:104-106 | the model is asked about the transcribed text alone: the first request holds the system prompt and that text, and no conversation history |
| Handlers.VoiceUnheard | kharazmichi-bot/src/bot/handlers.py:82-124 | a failed download or an empty transcription edits the "processing" message into the matching error, sends nothing else, and does not call the model |

## Left out

- I/O is not modelled: the Telegram API, the FastAPI/uvicorn server, logging, and the voice file download and Whisper transcription. Transcription is the `Voice` input to `Handlers.HandleVoice`.
- The `except` branches of the handlers are not modelled. They catch failures to send to Telegram and failures to build the assistant client. `AIAgent.chat` never raises once the prompt is built, because the model calls and the tools run inside its `try`; building the prompt from history can raise (see Agent.Chat below), but the handlers pass no history.
- Handlers.HandleVoice: a transcription call that raises is folded into `downloadFails`, since both lead to the same edit. A transcription that fails quietly is `None`.
- Concurrency is not modelled. Registration and the history update are check-then-write sequences, and only sequential executions are modelled.
- Python `float` is not modelled. Coordinates are exact decimals (`real`), so values within rounding of the box edges may be classified differently than by `float`. The `ValueError` branch of `_extract_coordinates` is unreachable, because `float()` accepts every text the capture group admits.
- Coordinates.ExtractCoordinates: `\d` matches only the model's digit set (ASCII, Arabic-Indic, Extended Arabic-Indic), while Python's `\d` matches every Unicode decimal digit. `\s` is modelled exactly: for `str` patterns it is the `str.isspace` set, which `Strings.IsSpace` holds.
- Similarity scores are formatted with `:.2f` and locations rendered with `json.dumps`. Both are function parameters of the assistant, not modelled.
- Agent.RunTool: `json.loads` is a parameter that tells text that is not JSON from other JSON and from an object, and objects are modelled as maps of strings. An object whose tool key holds a non-string value is not modelled: the source passes that value on to the search.
- Agent.Chat: a history entry whose `content` is present but `null` is not modelled. In the source it raises outside the `try`. The system prompt and the tool schemas are parameters.
- Users: the users table is a sequence of rows in insertion order, not a map keyed by Telegram id. A lookup's "first row of the response" needs an order, and two rows for one id can exist when lookups have failed.
- Auth.ValidateStudentCode: digits are the ASCII, Arabic-Indic and Persian ones. Python's `isdigit` also accepts other Unicode digits, such as fullwidth and superscript digits, which the model rejects.
- Config.ParseAll: `int()` is modelled for the same three digit sets, with an optional sign and single underscores between digits. Python's `int()` also accepts the other Unicode decimal digits, such as fullwidth ones, which the model rejects.
- Config.LoadSettings: when both fields are out of range the model reports only the daily limit, while pydantic reports both errors together.
- Auth.RegisterUser: reply texts are represented by the outcome datatype that selects them. The code is validated after stripping but stored as given, and the model keeps that difference.
- Auth.RegisterAllKeepsUnique: only holds when every lookup succeeds. A failed lookup reads as "not found", so the source can insert a duplicate then.
- Knowledge: metadata values are strings. Other JSON values are not modelled.
- Knowledge.ClearAll: the source deletes rows with `id != 0`, so a row with id 0 survives. The model keeps that.
- Knowledge.SearchKnowledgeBase: the embedder is a parameter. Every failure inside the service's `try` is the embedder returning `None`. The repository turns its own failures into an empty result.
- Chunker.ChunkText takes the character budget as a parameter. The loader uses 1000 (`Chunker.ChunkSize`). The loader's `chunk_overlap` of 200 is never read, and the model records it only as a constant.
- `read_docx`, `load_directory`, `load_single_file` and `main` of the loader are not modelled: they do file parsing and command-line handling.
- `check_docs.py`, `commands.py`, `main.py`, `voice.py` and `supabase_client.py` are not part of this model. `commands.py` only delegates to the modelled auth and rate-limiter code.
- `ConversationRepository.clear_history`, `AuthService.get_user`, `UserRepository.create` and `KnowledgeRepository.insert` are modelled only through the operations that use them, or not at all when nothing modelled calls them.
- The pydantic models in `models.py` are mirrored as datatypes. Database timestamps and row ids that nothing reads are dropped.
- The clock is not modelled. Time is an integer number of seconds since the epoch, passed in, and "today" starts at 00:00 UTC.
