# Election-day reporting bot: the survey conversation

This project models the conversation core of a WhatsApp bot (`server.js`).
Reporters use it on election day. Each reporter is keyed by phone number and
walks through a fixed survey:

`start → name → area → center → voted → (count → report →) completed`

On the way the bot stores their answers in a `user_sessions` row. At the end
it inserts one row into `voting_records` and sends a summary. Every inbound
message is also logged in `conversation_logs`.

The model has two layers.

- **The handlers as values** (`conversation.dfy`, module `Conversation`).
  - A `Store` holds the session map, the inserted records, the conversation
    log and the gateway's outbox.
  - Each handler of `server.js` is a function from one store to the next.
    It issues its patches, inserts and sends in the same order as the
    source.
  - `Handle` is `handleVotingConversation`. `Run` folds `Handle` over a
    sequence of inbound messages.
- **The handlers as they run** (`bot.dfy`, class `Bot.VotingBot`).
  - The class has one field per table, plus the outbox.
  - It has one method per function of `server.js`. Each method ensures that
    its new state is the value the matching function computes.
  - The digit conversion of `handleCountStep` keeps its loop over the ten
    digits (`Numerals.ConvertArabicDigits`). So does the phone formatting of
    `sendMessage`, which reassigns its result three times
    (`Phone.FormatPhone`).
  - `ProcessWebhook` keeps the webhook's loop over the message array.

The JavaScript string built-ins the handlers rely on are modelled in
`js_text.dfy`: `trim` with the ECMAScript whitespace set, `toLowerCase`,
`.length` in UTF-16 code units, and `includes`. The radix-less `parseInt`
and the digit mapping are in `numerals.dfy`.

The properties live in three modules:

- `ConversationProofs` (`conversation_proofs.dfy`) has one exact rule per
  step: the new session row, the new records, and the messages sent and
  logged.
- `SurveyInvariants` (`survey_invariants.dfy`) proves step ordering,
  frames, well-formed sessions and complete records. It also defines an
  independent session-level transition `Next`, which `Handle` is proved to
  follow.
- `SurveyScenarios` (`survey_scenarios.dfy`) has whole conversations and
  the way count and yes/no answers are read.

`server.js` disagrees with its own prompts in two places, and the model
follows the code.

- The count prompt suggests a bare number. The code accepts any text that
  *starts* with a number: `parseInt("12 voters")` is 12.
- The yes/no prompt asks for exactly "نعم" or "لا". The code accepts any
  answer that *contains* one of the words.

The model also keeps the hexadecimal reading of radix-less `parseInt`
(`"0x1A"` is 26) instead of treating it as out of scope. It costs nothing
and it is what the code does.

## Model

| member | source | states |
|---|---|---|
| JsText.Trim | server.js:246 | `String.prototype.trim`: the result is no longer than the input and is either empty or has no whitespace at either end |
| JsText.TrimRemovesOnlySpaces | server.js:246 | the input is the trimmed text with only whitespace before and after it |
| JsText.TrimIdempotent | server.js:246 | trimming a trimmed answer changes nothing |
| JsText.TrimEmptyIff | server.js:365-367 | the trimmed report is empty exactly when the message is all whitespace |
| JsText.ToLower | server.js:302 | `toLowerCase` keeps the length and maps each character through the case mapping |
| JsText.Utf16Length | server.js:248 | `.length` counts UTF-16 code units: at least one and at most two per character |
| JsText.LowerChar | server.js:302 | the per-character case mapping of `toLowerCase`, ASCII letters only; its effect on whole strings is stated by `ToLower` |
| JsText.Contains | server.js:304 | `includes` as a substring test; both directions are stated by `ContainsIff` |
| JsText.ContainsIff | server.js:304 | `includes` holds exactly when the needle occurs at some index of the text |
| JsText.ContainsInfix | server.js:304 | a text that has the needle inside it includes it |
| Numerals.AsciiOf | server.js:336-340 | the pairing of `arabicNumbers[i]` with `englishNumbers[i]`; other characters are unchanged |
| Numerals.NormalizeDigits | server.js:336-341 | the effect of the replace loop as a per-character map, ensuring the length is kept and each character is mapped through `AsciiOf` |
| Numerals.ParseInt | server.js:343 | radix-less `parseInt`: leading whitespace, one sign, a `0x` prefix, the longest digit run, NaN as `None`; its behaviour is stated by `ParseIntDecimal`, `ParseIntNegative` and `ParseIntNoDigits` |
| Numerals.ReplaceAll | server.js:340 | one global regular-expression replace changes exactly the occurrences of one digit and keeps the length |
| Numerals.ConvertArabicDigits | server.js:333-341 | the ten-pass loop gives the per-character digit mapping of the text |
| Numerals.NormalizeDigitsResult | server.js:336-341 | after the mapping no Arabic-Indic digit is left, other characters are unchanged, and a position holds an ASCII digit exactly when it held a digit of either kind |
| Numerals.NormalizeDigitsIdempotent | server.js:336-341 | mapping the digits twice is the same as mapping them once |
| Numerals.NormalizeDigitsConcat | server.js:336-341 | the mapping works character by character, so it distributes over concatenation |
| Numerals.DigitRun | server.js:343 | `parseInt` reads the longest run of digits: every character before the run's end is a digit and the next one is not |
| Numerals.DecimalStringValue | server.js:343 | the digits of a number read back as that number |
| Numerals.ParseIntDecimal | server.js:343 | `parseInt` of a number's digits, followed by any text that does not continue the numeral, is that number |
| Numerals.ParseIntNegative | server.js:343 | `parseInt` of a minus sign and a number's digits is the negative number |
| Numerals.ParseIntNoDigits | server.js:343-345 | a text that starts with neither a digit, a sign nor whitespace is NaN |
| Numerals.NormalizeArabicDecimal | server.js:336-341 | a number written in Arabic-Indic digits maps to the same number in ASCII digits |
| Phone.DigitsOnly | server.js:483 | stripping `\D` leaves only ASCII digits and never lengthens the number |
| Phone.DigitsOnlyKeepsDigits | server.js:483 | stripping non-digits from an all-digit number changes nothing |
| Phone.DigitsOnlyConcat | server.js:483 | stripping non-digits works piece by piece |
| Phone.FormattedPhone | server.js:483-494 | the number `sendMessage` posts to: non-digits stripped, one leading `0` dropped, `964` prepended when missing; stated by `FormattedPhoneShape`, `FormattedPhoneKeepsSubscriber` and `FormattedLocal` |
| Phone.FormatPhone | server.js:483-494 | the three reassignments give the formatted number, which is all digits and starts with `964` |
| Phone.FormattedPhoneShape | server.js:483-494 | every formatted number is all ASCII digits and starts with `964` |
| Phone.FormattedPhoneFixesCanonical | server.js:489-494 | an all-digit number that already starts with `964` is sent as it is |
| Phone.FormattedPhoneIdempotent | server.js:483-494 | formatting a formatted number changes nothing |
| Phone.FormattedPhoneKeepsSubscriber | server.js:483-494 | the formatted number ends with the digits of the input, less at most one leading `0` |
| Phone.FormattedLocal | server.js:489-494 | a local number `0…` is sent as `964…` |
| Phone.FormattedIgnoresSeparator | server.js:483-494 | spaces, `+` and other non-digits anywhere in the number do not change where the message goes |
| Conversation.CommandText | server.js:136-139 | the answer as the handlers compare it: `message.toLowerCase().trim()` (also server.js:302) |
| Conversation.IsRestartCommand | server.js:136-141 | the lowered, trimmed message is exactly one of the four start words; its effect is stated by `RestartRule` |
| Conversation.SaysYes | server.js:304 | the answer includes `نعم` or `yes`; stated by `AnswerAnywhere` |
| Conversation.SaysNo | server.js:316 | the answer includes `لا` or `no`; stated by `AnswerAnywhere` |
| Conversation.CountOf | server.js:333-343 | the count step's reading: trim, map the Arabic-Indic digits, `parseInt`; stated by the `CountOf…` scenarios |
| Conversation.Applied | server.js:245-375 | the `update` objects of the handlers applied to a row: each stores its answers and names the next step |
| Conversation.Upserted | server.js:213-230 | `startNewSession` upserts a fresh row at step `name` on the phone number |
| Conversation.Updated | server.js:438-459 | `updateUserStep` and `updateUserSession` patch the row when there is one and change nothing otherwise |
| Conversation.Sent | server.js:477-494 | `sendMessage` appends the reply to the outbox under the formatted number and logs it under the raw number |
| Conversation.Logged | server.js:462-474 | `logConversation` appends the raw message and its step to the log |
| Conversation.RecordOf | server.js:395-405 | the inserted record, with the `|| 0` and `|| 'لا يوجد تقرير'` defaults; stated by `CompletedRecord` |
| Conversation.StartStep | server.js:233-242 | `handleStartStep`; stated by `StartStepRule` |
| Conversation.NameStep | server.js:245-261 | `handleNameStep`; stated by `NameRule` |
| Conversation.AreaStep | server.js:264-280 | `handleAreaStep`; stated by `AreaRule` |
| Conversation.CenterStep | server.js:283-298 | `handleCenterStep`; stated by `CenterRule` |
| Conversation.VotedStep | server.js:301-329 | `handleVotedStep`; stated by `VotedRule` |
| Conversation.CountStep | server.js:332-361 | `handleCountStep`; stated by `CountRule` |
| Conversation.ReportStep | server.js:364-382 | `handleReportStep`; stated by `ReportRule` |
| Conversation.FinalReport | server.js:385-435 | `generateFinalReport`: insert the record, send the summary, move to `completed`; stated by `VotedRule`, `ReportRule` and `ContinueRecords` |
| Conversation.Dispatch | server.js:150-180 | the `switch` on the stored step, `default` included; stated by the per-step rules and `UnknownStepRule` |
| Conversation.Handle | server.js:128-195 | `handleVotingConversation`; stated by `RestartRule`, `StepOrder`, `HandleFrame` and `HandleKeepsWellFormed` |
| Conversation.Run | server.js:76-88 | the webhook loop over its text messages; stated by `RunStepOrder` and `RunInvariant` |
| Conversation.TextMessages | server.js:78-87 | only `text` messages reach the handler, in array order; stated by `ProcessWebhook` |
| ConversationProofs.RestartRule | server.js:136-145 | with no session, or a restart command, the row is reset to step `name` with every answer null, the welcome text is the only reply, no record is written and the message is logged at step `start` |
| ConversationProofs.StartStepRule | server.js:233-242 | step `start` sends the welcome text and moves to `name` |
| ConversationProofs.NameRule | server.js:245-261 | a trimmed name of at least 6 UTF-16 units is stored and the step moves to `area`; a shorter one leaves the sessions unchanged and re-prompts |
| ConversationProofs.AreaRule | server.js:264-280 | a trimmed area of at least 2 units is stored and the step moves to `center`; a shorter one leaves the sessions unchanged and re-prompts |
| ConversationProofs.CenterRule | server.js:283-298 | any centre, even an empty one, is stored trimmed and the step moves to `voted` |
| ConversationProofs.VotedRule | server.js:301-329 | a yes answer sets `has_voted` and moves to `count`; otherwise a no answer fills in the did-not-vote answers, completes the survey and writes exactly one record; otherwise nothing changes and the question is asked again |
| ConversationProofs.CountRule | server.js:332-361 | a count that parses to a number of at least 0 is stored and the step moves to `report`; NaN or a negative number leaves the sessions unchanged and re-prompts |
| ConversationProofs.ReportRule | server.js:364-382 | a non-empty trimmed report is stored, the survey completes and exactly one record is written after the acknowledgement; an empty one re-prompts with nothing changed |
| ConversationProofs.CompletedRule | server.js:172-174 | at `completed` a non-restart message only gets the restart hint |
| ConversationProofs.UnknownStepRule | server.js:176-179 | a row with an unrecognised step is reset to a fresh session and the welcome text is sent |
| SurveyInvariants.StepOrder | server.js:136-180 | a new sender, a restart command or an unrecognised stored step gives a fresh session at `name`; in every other case the step stays or advances one survey step (`voted` may go straight to `completed`), never back |
| SurveyInvariants.ContinueFrame | server.js:128-195 | a message changes only the sender's row, only appends to the records, log and outbox, and logs itself last under the step it was handled at |
| SurveyInvariants.HandleFrame | server.js:128-195 | the same frame for every message, restart or not |
| SurveyInvariants.ContinueRecords | server.js:316-381 | a record is written exactly when the step passes from `voted` or `report` to `completed`, and it is the record of the new row |
| SurveyInvariants.RecordsOnCompletion | server.js:385-405 | over all messages, at most one record is written, and only on one of the two transitions into `completed` |
| SurveyInvariants.Next | server.js:150-179 | the survey as a transition on one session: an unrecognised step resets to a fresh session, every known step stays or advances in survey order |
| SurveyInvariants.ContinueNext | server.js:150-179 | a message that continues a conversation changes the sender's row exactly as `Next` says |
| SurveyInvariants.NextWellFormed | server.js:245-382 | every transition keeps a session well formed: the answers of the passed steps are stored trimmed and valid, the later ones are null |
| SurveyInvariants.HandleKeepsWellFormed | server.js:128-195 | handling any message keeps every session row well formed |
| SurveyInvariants.CompletedRecord | server.js:395-405 | the record of a completed, well-formed session takes its count and report as stored, and every field is filled |
| SurveyInvariants.HandleRecordsComplete | server.js:385-405 | from well-formed sessions, a message writes either no record or one complete record |
| SurveyInvariants.RunStepOrder | server.js:76-88 | in a run of messages each message either resets its sender's session (new sender, restart command, unrecognised step) or moves its step forward in survey order, and leaves every other reporter's row as it was |
| SurveyInvariants.RunInvariant | server.js:76-88 | across any sequence of messages the sessions stay well formed, old records are never changed, and each message adds at most one record, which is complete |
| Bot.VotingBot.GetUserSession | server.js:198-210 | `getUserSession` finds the row of the phone number exactly when there is one |
| Bot.VotingBot.StartNewSession | server.js:213-230 | `startNewSession` upserts a fresh row |
| Bot.VotingBot.UpdateUserSession | server.js:438-459 | `updateUserSession` and `updateUserStep` patch the row when it exists and change nothing otherwise |
| Bot.VotingBot.LogConversation | server.js:462-474 | one log entry with the raw message and the step it was handled at |
| Bot.VotingBot.SendMessage | server.js:477-494 | the body goes to the outbox under the formatted number, and the response is logged under the raw number |
| Bot.VotingBot.HandleStartStep | server.js:233-242 | the new state is the start step's |
| Bot.VotingBot.HandleNameStep | server.js:245-261 | the new state is the name step's |
| Bot.VotingBot.HandleAreaStep | server.js:264-280 | the new state is the area step's |
| Bot.VotingBot.HandleCenterStep | server.js:283-298 | the new state is the centre step's |
| Bot.VotingBot.HandleVotedStep | server.js:301-329 | the new state is the voted step's |
| Bot.VotingBot.HandleCountStep | server.js:332-361 | the new state is the count step's, with the count read by the digit loop and `parseInt` |
| Bot.VotingBot.HandleReportStep | server.js:364-382 | the new state is the report step's |
| Bot.VotingBot.GenerateFinalReport | server.js:385-435 | one record with the `|| 0` and `|| 'لا يوجد تقرير'` defaults, then the summary, then step `completed`; without a row, only the fetch-error text |
| Bot.VotingBot.HandleVotingConversation | server.js:128-195 | the new state is `Handle`'s, and well-formed sessions stay well formed |
| Bot.VotingBot.ProcessWebhook | server.js:76-88 | the text messages are handled in array order, other kinds are skipped, and well-formed sessions stay well formed |
| SurveyScenarios.CompleteSurvey | server.js:128-435 | a restart followed by six acceptable answers, the voted one a yes, ends at `completed` with exactly one new record holding the trimmed answers |
| SurveyScenarios.NotVotedSurvey | server.js:316-324 | a no at the voted question completes the survey with the did-not-vote record |
| SurveyScenarios.CompletedIsFinal | server.js:172-174 | a completed survey ignores every later non-restart message apart from the restart hint |
| SurveyScenarios.CountOfArabic | server.js:333-345 | a count written in Arabic-Indic digits, such as `٣`, is read as its value |
| SurveyScenarios.CountOfDecimal | server.js:333-345 | a count in ASCII digits is read as its value |
| SurveyScenarios.CountOfNegative | server.js:343-347 | a negative count parses as negative, so the count step refuses it |
| SurveyScenarios.CountOfLeadingNumber | server.js:343 | a count followed by words is read as its leading number |
| SurveyScenarios.AnswerAnywhere | server.js:304-316 | "yes" or "no" anywhere in the answer counts as that answer |

## Left out

- Express setup, the HTML page, `/test-send`, the environment check and
  webhook verification. These are transport and start-up plumbing.
- Supabase as a service. The tables are an in-memory map and two
  sequences. Store errors, including `PGRST116`, are only logged by the
  source, so every store operation is total here.
- The 360Dialog HTTP call. Sending always succeeds and appends to the outbox.
  So the model does not capture a failed send raising inside a handler,
  nor the apology messages of the two `catch` blocks (server.js:185-194,
  431-434).
- A `text` message without a `text` field, which throws in the webhook loop.
  The model's webhook messages always carry a body.
- The wording of the replies and of the final summary, including the
  `toLocaleString('ar-IQ')` timestamp. Replies are a datatype holding the
  data they echo.
- Logging to the console, and interleaving between concurrent webhook
  deliveries. Messages are handled one at a time.
- JsText.ToLower: maps only the ASCII letters. The restart words and yes/no
  words are Arabic or ASCII, and Arabic letters have no case, but
  `toLowerCase` on other scripts (Greek, Cyrillic, Turkish dotted I) is not
  modelled.
- Numerals.ParseInt: returns the exact integer. JavaScript's loss of
  precision beyond 2^53, and `Infinity` for very long digit runs, are not
  modelled.
- Conversation.Step: a row's unrecognised `current_step` is `Unknown(tag)`.
  The tag is kept for the log, but its text is not compared with the known
  step names.
