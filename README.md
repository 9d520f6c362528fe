# teinei-line webhook core, in Dafny

teinei-line is a LINE chat bot that rewrites a user's message in a politer
register. The user picks one of four registers: club (部活), circle (サークル),
job hunting (就職活動) or an older adult (目上の大人). The bot then asks the
Gemini generative-text API for the rewrite. The webhook keeps no session. The
conversation state travels in the `data` strings of the postback buttons it
sends, called routing tokens here:

- `<register>_<text>`: the user picked a register for the text.
- `change_<text>`: the user wants another register for the same text.
- `next_message`: the user wants to type a new message.

This project models the deterministic core of `src/index.ts` as pure functions:

- `Whitespace`: the picker's normalisation `replace(/[\n\s]+/g, ' ').trim()`
  and the trailing trim `replace(/[\n\s]+$/g, '')` of the generated text.
  `IsSpace` is the ECMAScript `\s` class. The collapse is characterised run
  by run: a whitespace run between two words becomes exactly one blank
  (`CollapseRunsSeparates`, `NormalizeSeparates`), and text with no run left
  to collapse is unchanged (`CollapseRunsOfSeparated`).
- `Strings`: the JavaScript `split` on one character, `replace` of the first
  occurrence of a literal pattern, and `startsWith`.
- `Routing`: the registers, the routing-token encoders, and the decoders of
  lines 62 and 136-141.
- `Messages`: the two button templates, `createConversionButtons` and
  `createPoliteTextResponse`.
- `Webhook`: `handleEvent` and its handlers. `HandleEvent(event, outcome)`
  returns the outbound effects in the order the handlers await them:
  `StartLoading`, then `RequestCompletion`, then `Reply` with its message
  list. The Gemini call is an input with three cases: `Failed(message)`,
  `Answered(None)` and `Answered(Some(text))`.
- `WebhookProperties`: what the dispatcher promises, up to the round trip of a
  whole conversation through its own buttons.

Two behaviours are modelled as the code has them, not as one might expect.

- The decoder splits on every `_`. A text that holds a `_` therefore comes back
  cut at its first `_` (`RegisterTruncation`).
- A text message exactly equal to a register label is routed to
  `handleQuickReplyResponse`. That handler returns at once for anything but a
  postback, so such a message gets no answer at all (`RegisterLabelTextIsIgnored`).
  The label is compared as typed, before any trimming.

## Model

| member | source | states |
|---|---|---|
| `Whitespace.IsSpace` | src/index.ts:55 | the ECMAScript `\s` class (WhiteSpace and LineTerminator), which `[\n\s]` and `trim` both use; the lemmas below state what each operation does with it |
| `Whitespace.TrimEnd` | src/index.ts:169 | the result is a prefix of the input and does not end in whitespace |
| `Whitespace.TrimEndRemovesSpace` | src/index.ts:169 | every character removed from the end is whitespace |
| `Whitespace.TrimEndAppend` | src/index.ts:169 | trailing whitespace is removed only after the last non-whitespace character; what precedes it is untouched |
| `Whitespace.TrimStart` | src/index.ts:55 | the result is a suffix of the input and does not start with whitespace |
| `Whitespace.TrimStartRemovesSpace` | src/index.ts:55 | every character removed from the start is whitespace |
| `Whitespace.TrimStartAppend` | src/index.ts:55 | leading whitespace is removed only before the first non-whitespace character; what follows it is untouched |
| `Whitespace.TrimStartOfRun` | src/index.ts:55 | a whitespace run in front of text that starts with a non-whitespace character is removed entirely |
| `Whitespace.Trim` | src/index.ts:55 | `trim()`, the leading then the trailing removal; its contract is carried by `TrimProperties`, `TrimOfSeparated` and `TrimJoin` |
| `Whitespace.TrimProperties` | src/index.ts:55 | trim leaves no whitespace at either end and keeps the non-whitespace characters in order |
| `Whitespace.TrimOfSeparated` | src/index.ts:55 | trimming text whose whitespace is single blanks gives text in normal form with the same non-whitespace characters |
| `Whitespace.TrimJoin` | src/index.ts:55 | trimming two parts joined by one blank that meets no other whitespace trims each part on its own and keeps the blank |
| `Whitespace.CollapseRuns` | src/index.ts:55 | `replace(/[\n\s]+/g, ' ')`; its contract is carried by `CollapseRunsProperties`, `CollapseRunsSeparates`, `CollapseRunsAppend` and `CollapseRunsOfSeparated` |
| `Whitespace.CollapseRunsProperties` | src/index.ts:55 | after collapsing, no two neighbouring characters are whitespace and every whitespace character is a blank; the non-whitespace characters are kept in order; the result is empty exactly when the input is, and starts with whitespace exactly when the input does |
| `Whitespace.CollapseRunsAppend` | src/index.ts:55 | collapsing distributes over concatenation when the cut does not fall inside a whitespace run |
| `Whitespace.CollapseRunsOfRun` | src/index.ts:55 | a whitespace run of any length in front of text that does not start with whitespace becomes one blank |
| `Whitespace.CollapseRunsSeparates` | src/index.ts:55 | a non-empty whitespace run, of any length and mix of whitespace characters, between a part not ending in whitespace and a part not starting with it becomes exactly one blank, each part being collapsed on its own |
| `Whitespace.CollapseRunsLast` | src/index.ts:55 | a final non-whitespace character stays last after collapsing |
| `Whitespace.CollapseRunsOfSeparated` | src/index.ts:55 | text with no two neighbouring whitespace characters and only blanks as whitespace has no run to collapse and is left unchanged |
| `Whitespace.Normalize` | src/index.ts:55 | the collapse followed by `trim()`; its contract is carried by `NormalizeProperties`, `NormalizeSeparates`, `NormalizeOfNormalized` and `NormalizeIdempotent` |
| `Whitespace.NormalizeProperties` | src/index.ts:55 | the picker's text has no leading or trailing whitespace, no two adjacent whitespace characters, only blanks as separators, and every non-whitespace character of the user's text in order |
| `Whitespace.NormalizeSeparates` | src/index.ts:55 | two words separated by a whitespace run are normalised to the normalised first word, exactly one blank, and the normalised second word |
| `Whitespace.NormalizeOfNormalized` | src/index.ts:55 | text already in that form is left unchanged by the normalisation |
| `Whitespace.NormalizeIdempotent` | src/index.ts:55 | normalising twice equals normalising once |
| `Strings.Join` | src/index.ts:136 | the pieces with the separator between them; it is the inverse partner of `Split`, related to it by `Split` and `SplitJoin` |
| `Strings.Split` | src/index.ts:136 | `split('_')` gives at least one piece, no piece holds the separator, and joining the pieces with it gives back the input |
| `Strings.SplitJoin` | src/index.ts:136 | splitting undoes joining whenever no piece holds the separator |
| `Strings.IndexOfFrom` | src/index.ts:62 | the position found is an occurrence of the pattern with none before it, and no position is an occurrence when none is found |
| `Strings.ReplaceFirst` | src/index.ts:62 | `replace` with a string pattern, which replaces its first occurrence only; its contract is carried by `ReplaceFirstOfPrefix` |
| `Strings.StartsWith` | src/index.ts:202 | `startsWith`: the pattern is a prefix of the string; `TokensRouteAsIntended` states which routing data it accepts |
| `Strings.ReplaceFirstOfPrefix` | src/index.ts:62 | when the string starts with the pattern, replacing its first occurrence by nothing removes exactly that prefix |
| `Routing.Key` | src/index.ts:24 | the `ConversionType` string of a register; `KeyRoundTrip` states it is non-empty, holds no `_` and names its own register |
| `Routing.Label` | src/index.ts:33-36 | the picker's button label of a register; `RegisterLabelsArePickerLabels` states these are the texts the dispatcher tests |
| `Routing.RegisterOfKey` | src/index.ts:145-152 | a found register has the key looked up; no register has a key that is not found |
| `Routing.KeyRoundTrip` | src/index.ts:24 | every register key is non-empty, holds no `_`, and looks up its own register |
| `Routing.RegisterData` | src/index.ts:33-36 | the data `<key>_<text>` of a picker button; `RegisterRoundTrip` and `RegisterTruncation` state what the decoder makes of it |
| `Routing.ChangeData` | src/index.ts:118 | the data `change_<text>` of the retry button; `ChangeRoundTrip` states that `ChangeText` undoes it |
| `Routing.ParseSelection` | src/index.ts:136-141 | the decoder of the completion flow; its contract is carried by `ParseSelectionSpec`, `RegisterRoundTrip`, `RegisterTruncation` and `EmptyTextIsRejected` |
| `Routing.ParseSelectionSpec` | src/index.ts:136-141 | the decoder rejects exactly the data with no `_`, an empty register piece or an empty text piece; otherwise it gives the text before the first `_` and the text between the first `_` and the next `_` or the end |
| `Routing.RegisterRoundTrip` | src/index.ts:33-36 | decoding `<register>_<text>` for a non-empty text without `_` gives back exactly the register key and the text |
| `Routing.RegisterTruncation` | src/index.ts:136 | for a text holding `_`, decoding gives back only the part before its first `_`, and rejects the data when that part is empty |
| `Routing.EmptyTextIsRejected` | src/index.ts:138-141 | the buttons of a picker for an empty text carry data the decoder rejects |
| `Routing.ChangeText` | src/index.ts:62 | the text read back from retry data; its contract is carried by `ChangeRoundTrip` |
| `Routing.ChangeRoundTrip` | src/index.ts:62 | removing the first `change_` from `change_` + text gives back the text, whatever it holds |
| `Messages.CreateConversionButtons` | src/index.ts:26-39 | the register picker; its contract is carried by `PickerButtons` |
| `Messages.PickerButtons` | src/index.ts:26-39 | the picker has the alt text 変換シーンを選択してください and the title このメッセージをどのように丁寧にしますか？, and exactly four postback buttons in the order club, circle, jobHunting, adult, each labelled with its register and carrying `<key>_<text>`; for a non-empty text without `_`, each button's data decodes to its own register and the text |
| `Messages.CreatePoliteTextResponse` | src/index.ts:110-122 | the result prompt; its contract is carried by `ResultButtons` |
| `Messages.ResultButtons` | src/index.ts:110-122 | the result prompt has the alt text 変換されたテキストです and shows the generated text; its three buttons are コピー copying that same text, 他のシーンで変換 with data `change_` + original text, which decodes back to the original text, and 次のメッセージ with data `next_message` opening the keyboard |
| `Webhook.PromptPrefix` | src/index.ts:146-149 | the user-prompt template of each register, ending in a blank line; `ChooseRegister` states that the request is this template followed by exactly the text |
| `Webhook.BuildRequest` | src/index.ts:145-156 | the completion request for a decoded selection; `ChooseRegister` and `PickerButtonCompletes` state it for the picker's data, and `RegisterOfKey` states the key lookup |
| `Webhook.CompletionReplies` | src/index.ts:155-185 | the reply of the completion flow; its contract is carried by `CompletionMessages` |
| `Webhook.IsRegisterLabel` | src/index.ts:191-196 | the four texts compared at these lines; `RegisterLabelsArePickerLabels` states they are exactly the picker's labels |
| `Webhook.HandleTextMessage` | src/index.ts:52-59 | the picker for the normalised text; its contract is carried by `TextMessageShowsPicker` |
| `Webhook.HandlePostbackChange` | src/index.ts:61-66 | the picker for the text read back from retry data; its contract is carried by `ChangeReshowsPicker` |
| `Webhook.HandlePostbackNextMessage` | src/index.ts:68-72 | the fixed prompt for a new message; its contract is carried by `NextMessageReply` |
| `Webhook.HandleQuickReplyResponse` | src/index.ts:124-187 | the completion flow; its contract is carried by `MalformedDataIsSilent`, `CompletionReply`, `CompletionMessages` and `RegisterLabelTextIsIgnored` |
| `Webhook.Classify` | src/index.ts:190-209 | the branch `handleEvent` takes, first match winning; its contract is carried by `TokensRouteAsIntended` and `RegisterLabelsArePickerLabels` |
| `Webhook.HandleEvent` | src/index.ts:189-211 | `handleEvent`; its contract is carried by `EffectShape` and the lemmas of `WebhookProperties` below |
| `WebhookProperties.RegisterLabelsArePickerLabels` | src/index.ts:190-196 | the texts taken as register replies are exactly the picker's four button labels |
| `WebhookProperties.TokensRouteAsIntended` | src/index.ts:201-208 | register data reaches the completion branch, `change_` data the picker branch, and `next_message` the next-message branch |
| `WebhookProperties.EffectShape` | src/index.ts:189-211 | every event causes nothing, or one reply of one message to its reply token, or (for a postback only) the loading indicator for its sender for 10 seconds, one completion request and one reply of one or two messages; events other than text messages and postbacks cause nothing |
| `WebhookProperties.RegisterLabelTextIsIgnored` | src/index.ts:129-132 | a text message exactly equal to a register label causes no effect at all |
| `WebhookProperties.TextMessageShowsPicker` | src/index.ts:52-59 | any other text message is answered by one picker for its normalised text, which is in normal form and keeps the text's non-whitespace characters |
| `WebhookProperties.NextMessageReply` | src/index.ts:68-71 | postback data `next_message` is answered by exactly one text message, 次のメッセージを入力してください。 |
| `WebhookProperties.ChangeReshowsPicker` | src/index.ts:61-66 | a retry button's data shows the picker again for the very text it was built for |
| `WebhookProperties.MalformedDataIsSilent` | src/index.ts:136-141 | postback data routed to the completion flow causes no loading call, no request and no reply exactly when it is malformed |
| `WebhookProperties.CompletionMessages` | src/index.ts:155-185 | a thrown error gives one text, エラーが発生しました: + message; a missing or empty generated text gives the one fixed error text; a generated text gives two messages: first a prefix of the generated text that does not end in whitespace, with only whitespace cut off after it, then the result prompt with the alt text 変換されたテキストです that shows that same text, with the buttons コピー copying it, 他のシーンで変換 with data `change_` + original text, and 次のメッセージ with data `next_message` opening the keyboard |
| `WebhookProperties.CompletionReply` | src/index.ts:124-187 | well-formed completion data decodes, and causes in this order the loading indicator for the sender for 10 seconds, the request for the decoded selection, and one reply to the event's token with the completion messages for the decoded text |
| `WebhookProperties.ChooseRegister` | src/index.ts:143-177 | pressing a picker button for a non-empty text without `_` starts the loading indicator, requests that register's prompt over exactly that text, and replies with the trimmed generated text and its result prompt |
| `WebhookProperties.PickerButtonCompletes` | src/index.ts:33-36 | the i-th picker button requests the i-th register of the order club, circle, jobHunting, adult |
| `WebhookProperties.PickerRoundTrip` | src/index.ts:189-211 | with no state kept between turns, the i-th button of a picker for a non-empty text without `_` requests the i-th register's prompt over exactly that text and is answered with the trimmed generated text and its result prompt; the retry button of that prompt shows the identical picker again |

## Left out

- The HTTP calls (`sendReply`, `startLoading`, the request in `fetchGeminiResponse`) are effects in the returned list. Gemini's answer, including a non-success status turned into a thrown error, is the `CompletionOutcome` input.
- A rejected `fetch` is not modelled. In the code, a failed reply send inside the `try` would cause a second, error reply. A failed `startLoading` is awaited outside the `try`, so it would end the event's handling with no reply.
- Reading the response JSON (the type cast and the optional chaining down to the first part's text) is folded into `Answered(Option<string>)`. A `text` field that is present but not a string is not modelled.
- The Hono server, the request body, and the secrets read from the environment are left out as framework and I/O plumbing.
- The `Promise.all` fan-out over a batch of events is left out, together with its per-event `catch` and the constant `{message: 'ok'}` acknowledgement, because its point is concurrency.
- `console.log` and `console.error` calls are left out.
- The wording of the system prompts is not modelled. A request carries the register key, which selects the system instruction, and the user prompt built from the register's template and the original text.
- `BuildRequest`: a key that names no register gives an undefined prompt (`None`). Keys inherited from JavaScript's `Object.prototype`, such as `constructor`, would give a defined but meaningless value in the source; the model treats them like any other unknown key.
- Events are narrowed to text messages, postbacks, and one `OtherEvent` case. `OtherEvent` covers non-text messages and every other event type. The sender's `userId` is taken as always present.
- Strings are sequences of Unicode scalar values, not UTF-16 code units. Every character the operations look at (`_`, the `change_` prefix, the `\s` class) is a single code unit, so the difference does not show.
