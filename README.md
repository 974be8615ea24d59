# Strapi BFF plugin: voice assistant, Telegram bot and org chart, in Dafny

This project models the deterministic core of the `bff-api-plugin` of a Strapi
back end. The plugin sits between a web front end, a Python speech and
language-model service and the Telegram Bot API. The model covers these parts:

- **Voice assistant** (`server/src/services/voice.ts`), module `Voice`:
  - `simpleClean`, the answer cleaner the pipeline uses;
  - `detectLocalCommand`, the wake-word fast path. It turns an utterance that opens with
    the assistant's name and a verb into `[COMMAND]TG_MESSAGE:<body>[/COMMAND]`;
  - the marker stripping that recovers the command body;
  - `getMemory`, which reverses the store's newest-first records;
  - the history rendering of `ask`;
  - the order of the steps of one `askVoice` request.
- **Prompt and answer utilities** (`server/src/utils/assistant.ts`), module `Assistant`:
  `cleanAssistantAnswer` and `buildPrompt`.
- **Telegram bot** (`server/src/services/bot.ts`), module `Bot`:
  - `splitText`, which cuts text into chunks of at most 4096 characters;
  - the form encoding and error reporting of `tgCall`;
  - `sendTelegramMessage`, which checks its inputs and sends the text chunk by chunk
    until the first refusal;
  - `handleTelegramUpdate`, which dispatches the agreement button and the
    `/getchatid` and `/start` commands.
- **Org chart** (`server/src/services/service.ts`), module `OrgChart`:
  - `shortName`, `normalizeDutyText`, `mapEmployee` and `mapProject`;
  - the preorder flattening of projects, leader groups and employees in
    `getProjectsStructure`, with the leader id offset and the parent links;
  - the defaults of `getGlobalConfig`.
- **Image normalisation** (`utils/nomalize-image.ts`), module `Media`: `normalizeImage`.

Two support modules complete the model:

- `Text`: the string operations the code relies on. These are `trim`, lower-casing,
  `indexOf`, the first-occurrence `replace`, `split` and `join`.
- `Js`: the JavaScript values the code inspects, with truthiness, `||`, `??` and `String(v)`.

Everything the code does through the network or the document store becomes a parameter:

- The Bot API's answer to each call is a function `reply`.
- The transcript and the model's answer of a voice request are inputs, and so are the
  outcomes of the relay and of speech synthesis and what the memory query returned.
- The store's records are sequences.

Where the code loops and mutates, the model is imperative. Each such `method` is proved
against the function that specifies it:

- `SplitText`, `FormBody`, `SendChunks`, `ScanPatterns`, `AppendGroup`, `AppendProject`
  and `GetProjectsStructure` keep a loop with invariants.
- `TgCall`, `SendTelegramMessage` and `HandleTelegramUpdate` follow the code's early
  returns.

Where the code is an expression, the model is a function, and lemmas state its properties.

In a few places the code does less, or something else, than its names suggest. The model
follows the code:

- `buildPrompt` keeps both section headers even when their sections are empty. It drops
  only an empty joined instruction list and an empty history.
- The local command path always speaks the fixed reply "Уже делаю". It never returns an
  empty audio result.
- `detectLocalCommand` returns the body wrapped in the command markers, not the bare body.
- `simpleClean` does not cut at a paragraph break. That is `cleanAssistantAnswer`, which
  the voice pipeline does not call.

## Model

| member | source | states |
|---|---|---|
| Text.Trim | src/plugins/bff-api-plugin/server/src/services/voice.ts:22 | `trim()`: the result has no white space at either end and is the input minus its leading and trailing white-space runs |
| Text.Lower | src/plugins/bff-api-plugin/server/src/services/voice.ts:34 | `toLowerCase()` keeps the length and yields lower-case text |
| Text.IndexOf | src/plugins/bff-api-plugin/server/src/services/voice.ts:225 | the position found is an occurrence with no earlier one; none means no occurrence anywhere |
| Text.ReplaceFirstAt | src/plugins/bff-api-plugin/server/src/services/voice.ts:225-226 | replacing a string pattern rewrites exactly its first occurrence |
| Text.Split | src/plugins/bff-api-plugin/server/src/services/service.ts:45 | `split` yields at least one piece and no piece holds the separator |
| Text.JoinSplit | src/plugins/bff-api-plugin/server/src/services/service.ts:45 | joining the pieces of a split with the separator gives back the input |
| Js.Or | src/plugins/bff-api-plugin/server/src/services/bot.ts:46 | `a \|\| b` is truthy exactly when either operand is |
| Js.Coalesce | src/plugins/bff-api-plugin/server/src/services/service.ts:19 | `a ?? b` is nullish exactly when both operands are |
| Assistant.LineRest | src/plugins/bff-api-plugin/server/src/utils/assistant.ts:9 | the lazy `.*?\n` ends at a newline with no other line terminator before it |
| Assistant.DropUserLines | src/plugins/bff-api-plugin/server/src/utils/assistant.ts:9 | removing echoed user lines never lengthens the text |
| Assistant.LineRestOfLine | src/plugins/bff-api-plugin/server/src/utils/assistant.ts:9 | on a line free of other terminators the lazy match stops at its first newline |
| Assistant.UserLineDropped | src/plugins/bff-api-plugin/server/src/utils/assistant.ts:9 | "Пользователь:" with the rest of its line and the newline disappears |
| Assistant.LineRestNeedsNewline | src/plugins/bff-api-plugin/server/src/utils/assistant.ts:9 | the line pattern only matches where a newline follows |
| Assistant.NoNewlineKept | src/plugins/bff-api-plugin/server/src/utils/assistant.ts:9 | text without a newline, a "Пользователь:" on the last line included, is kept unchanged |
| Assistant.FirstBlock | src/plugins/bff-api-plugin/server/src/utils/assistant.ts:12 | `split(/\n\n/)[0]` is a prefix of the input holding no paragraph break |
| Assistant.CleanAssistantAnswer | src/plugins/bff-api-plugin/server/src/utils/assistant.ts:6-14 | "" stays ""; the answer is no longer than the input, holds no "\n\n" and has no white space at either end |
| Assistant.NonEmptyKeeps | src/plugins/bff-api-plugin/server/src/utils/assistant.ts:26 | `filter(Boolean)` keeps exactly the non-empty lines |
| Assistant.NonEmptyAppend | src/plugins/bff-api-plugin/server/src/utils/assistant.ts:26 | filtering distributes over concatenation |
| Assistant.NonEmptyPair | src/plugins/bff-api-plugin/server/src/utils/assistant.ts:19-26 | filtering a header and its section keeps each one only when non-empty |
| Assistant.BuildPromptLines | src/plugins/bff-api-plugin/server/src/utils/assistant.ts:18-27 | the prompt is both headers, the user line and the cue, with the joined instructions and the history each present only when non-empty |
| Assistant.JoinStarts | src/plugins/bff-api-plugin/server/src/utils/assistant.ts:26 | a joined list starts with its first line |
| Assistant.JoinEnds | src/plugins/bff-api-plugin/server/src/utils/assistant.ts:26 | a joined list ends with its last two lines and the separator |
| Assistant.JoinHas | src/plugins/bff-api-plugin/server/src/utils/assistant.ts:26 | every line occurs in the joined text |
| Assistant.BuildPromptFrame | src/plugins/bff-api-plugin/server/src/utils/assistant.ts:19-26 | the prompt always starts with "=== Instructions ===", contains "=== Dialogue history ===" and ends with the user line, a newline and "Ассистент:" |
| Assistant.BuildPromptEmpty | src/plugins/bff-api-plugin/server/src/utils/assistant.ts:18-27 | with no instructions and no history the prompt is the two headers, the user line and the cue |
| Voice.StripLabel | src/plugins/bff-api-plugin/server/src/services/voice.ts:23 | removing the leading label leaves a suffix of the text |
| Voice.StripLabelOnce | src/plugins/bff-api-plugin/server/src/services/voice.ts:23 | one label of any letter case with the white space after it is removed, and only one: the rest is kept even when it starts with another label |
| Voice.StripLabelPart | src/plugins/bff-api-plugin/server/src/services/voice.ts:23 | "Часть", in any letter case, then white space, a run of digits, ":" and white space is removed as a whole, up to the next non-space character |
| Voice.StripLabelKeepsUnlabelled | src/plugins/bff-api-plugin/server/src/services/voice.ts:23 | a text that starts with none of the four labels in any letter case comes back unchanged |
| Voice.StripLabelNeedsNumber | src/plugins/bff-api-plugin/server/src/services/voice.ts:23 | "Часть" not followed by a number is not a label, and the text comes back unchanged |
| Voice.StripLabelTrimmed | src/plugins/bff-api-plugin/server/src/services/voice.ts:22-23 | stripping the label from trimmed text leaves trimmed text |
| Voice.Collapse | src/plugins/bff-api-plugin/server/src/services/voice.ts:24 | collapsing white space never lengthens, empties only the empty text, leaves no two adjacent white-space characters and keeps whether the ends are white space |
| Voice.CollapseRun | src/plugins/bff-api-plugin/server/src/services/voice.ts:24 | a non-empty run of white space becomes exactly one ' ' |
| Voice.CollapseSplit | src/plugins/bff-api-plugin/server/src/services/voice.ts:24 | collapsing distributes over a cut that does not fall inside a white-space run, so each run is replaced by one ' ' in its place and the text between runs is kept |
| Voice.CollapseGap | src/plugins/bff-api-plugin/server/src/services/voice.ts:24 | "a  b" becomes "a b" |
| Voice.CollapseKeepsText | src/plugins/bff-api-plugin/server/src/services/voice.ts:24 | collapsing keeps every non-space character, in order |
| Voice.CollapseOfSingleSpaced | src/plugins/bff-api-plugin/server/src/services/voice.ts:24 | collapsing is the identity on single-spaced text |
| Voice.CollapseKeepsDots | src/plugins/bff-api-plugin/server/src/services/voice.ts:24-25 | text of dots and white space stays dots and white space after collapsing |
| Voice.SimpleClean | src/plugins/bff-api-plugin/server/src/services/voice.ts:19-29 | the cleaned answer is always at least three characters long |
| Voice.SimpleCleanShape | src/plugins/bff-api-plugin/server/src/services/voice.ts:19-28 | the answer is the fallback apology, or single spaced, trimmed, at least three long, not only dots, and holds exactly the non-space characters of the trimmed, label-stripped input |
| Voice.SimpleCleanKeepsCleanText | src/plugins/bff-api-plugin/server/src/services/voice.ts:19-29 | already clean text comes back unchanged |
| Voice.ShortCleanedNone | src/plugins/bff-api-plugin/server/src/services/voice.ts:25-26 | text shorter than three characters is rejected |
| Voice.DottedCleanedNone | src/plugins/bff-api-plugin/server/src/services/voice.ts:25-26 | text made only of dots and white space is rejected |
| Voice.ShortOrDottedGetsFallback | src/plugins/bff-api-plugin/server/src/services/voice.ts:25-26 | short or dots-only input, the empty text included, gets the fixed apology |
| Voice.CommaSpaceRun | src/plugins/bff-api-plugin/server/src/services/voice.ts:38-63 | `[, ]*` consumes commas and spaces only, and stops at the first other character |
| Voice.FirstPrefix | src/plugins/bff-api-plugin/server/src/services/voice.ts:38-63 | an alternation consumes one of its words that the text starts with, and fails exactly when the text starts with none |
| Voice.PieceRun | src/plugins/bff-api-plugin/server/src/services/voice.ts:38-63 | what one piece of a wake-word pattern consumes is matched by that piece |
| Voice.MatchFrom | src/plugins/bff-api-plugin/server/src/services/voice.ts:38-63 | a wake-word pattern match ends within the text, after where it started |
| Voice.MatchFromSound | src/plugins/bff-api-plugin/server/src/services/voice.ts:38-63 | the text a match consumes is in the language of the pattern: it splits into one part per piece, each matched by its piece |
| Voice.CommandBody | src/plugins/bff-api-plugin/server/src/services/voice.ts:67-69 | the body after a matched prefix is non-empty, trimmed, and lower case when the text is |
| Voice.FirstCommandNone | src/plugins/bff-api-plugin/server/src/services/voice.ts:66-75 | no command is found exactly when no pattern leaves a non-empty body |
| Voice.FirstCommandIsFirstMatch | src/plugins/bff-api-plugin/server/src/services/voice.ts:66-73 | patterns are tried in table order; an empty remainder does not stop the scan; the body is that of the first pattern giving one |
| Voice.ScanPatterns | src/plugins/bff-api-plugin/server/src/services/voice.ts:66-75 | the loop returns the first body found, or none |
| Voice.DetectLocalCommand | src/plugins/bff-api-plugin/server/src/services/voice.ts:33-76 | the command is the first body of the trimmed, lower-cased utterance wrapped in "[COMMAND]TG_MESSAGE:" and "[/COMMAND]", or none |
| Voice.CloseMarkerFirstAt | src/plugins/bff-api-plugin/server/src/services/voice.ts:226 | in a wrapped lower-case body the first closing marker is the one appended |
| Voice.MarkersRoundTrip | src/plugins/bff-api-plugin/server/src/services/voice.ts:224-227 | stripping both markers from a wrapped lower-case trimmed body gives back the body exactly |
| Voice.ExampleCommand | src/plugins/bff-api-plugin/server/src/services/voice.ts:33-76 | "ере, отправь привет" fails the first wake word, matches the second, and yields the wrapped body "привет" |
| Voice.LocalCommandRoundTrip | src/plugins/bff-api-plugin/server/src/services/voice.ts:218-227 | what the fast path relays is the detected body, which is non-empty |
| Voice.ReverseAt | src/plugins/bff-api-plugin/server/src/services/voice.ts:104 | `reverse()` puts element k at position n-1-k |
| Voice.GetMemory | src/plugins/bff-api-plugin/server/src/services/voice.ts:104 | missing records give no turns |
| Voice.GetMemoryAt | src/plugins/bff-api-plugin/server/src/services/voice.ts:104 | turn i is role and text of record n-1-i |
| Voice.GetMemoryChronological | src/plugins/bff-api-plugin/server/src/services/voice.ts:98-104 | reading the newest `limit` records back yields the last `limit` turns of the log, oldest first |
| Voice.RenderHistoryAppend | src/plugins/bff-api-plugin/server/src/services/voice.ts:150-152 | the history of one more turn is the old history, ";\n" and that turn's "Пользователь: t" or "Ассистент: t" line |
| Voice.RenderHistoryEmpty | src/plugins/bff-api-plugin/server/src/services/voice.ts:150-152 | the history is empty exactly when there are no turns |
| Voice.HistoryEndsWithLatest | src/plugins/bff-api-plugin/server/src/services/voice.ts:149-152 | the rendered history ends with the line of the newest record |
| Voice.AskVoice | src/plugins/bff-api-plugin/server/src/services/voice.ts:211-252 | no transcript: nothing saved and failure; otherwise the user's turn is saved first. The fast path relays the body without a prompt, saves the command only when the relay succeeded and succeeds with "Уже делаю" only when the relay and synthesis did. Otherwise the prompt is built from the memory read back, with an empty history when that read failed; an empty answer fails with only the user turn saved, the cleaned answer is saved, and it is spoken only when synthesis succeeded |
| Voice.AskVoiceSeesUtterance | src/plugins/bff-api-plugin/server/src/services/voice.ts:215-240 | when the save of the utterance succeeded and the query returns the newest records of the log, the history in the prompt on the model path ends with the utterance |
| Bot.Chunks | src/plugins/bff-api-plugin/server/src/services/bot.ts:14-21 | there is always at least one chunk |
| Bot.ChunksSizes | src/plugins/bff-api-plugin/server/src/services/bot.ts:17-19 | every chunk is at most `size` long, all but the last exactly `size`, and a non-empty text gives no empty chunk |
| Bot.ChunksConcat | src/plugins/bff-api-plugin/server/src/services/bot.ts:17-19 | concatenating the chunks gives back the text |
| Bot.ChunksCount | src/plugins/bff-api-plugin/server/src/services/bot.ts:17-19 | a non-empty text gives ceil(len / size) chunks |
| Bot.ChunksStep | src/plugins/bff-api-plugin/server/src/services/bot.ts:17-18 | one loop step cuts the next slice of at most `size` characters |
| Bot.SplitText | src/plugins/bff-api-plugin/server/src/services/bot.ts:14-21 | the loop yields the chunks, [""] for the empty text |
| Bot.FormEntries | src/plugins/bff-api-plugin/server/src/services/bot.ts:24-27 | the form body has at most one entry per parameter |
| Bot.FormEntriesMembership | src/plugins/bff-api-plugin/server/src/services/bot.ts:24-27 | a key and value are in the body exactly when some parameter with that key is neither null nor undefined and stringifies to that value |
| Bot.FormEntriesKeepAll | src/plugins/bff-api-plugin/server/src/services/bot.ts:24-27 | without nullish values every parameter is kept, in order, stringified |
| Bot.FormEntriesAppend | src/plugins/bff-api-plugin/server/src/services/bot.ts:25-27 | the body of two parameter lists is the concatenation of their bodies |
| Bot.FormBody | src/plugins/bff-api-plugin/server/src/services/bot.ts:24-27 | the `forEach` loop builds exactly that body |
| Bot.TgCall | src/plugins/bff-api-plugin/server/src/services/bot.ts:23-41 | the request carries the method and the form body; it fails exactly when the HTTP status or `ok` is false, with the description or else the status text |
| Bot.CallsFor | src/plugins/bff-api-plugin/server/src/services/bot.ts:52-62 | one `sendMessage` call per chunk |
| Bot.FirstFailureIsFirst | src/plugins/bff-api-plugin/server/src/services/bot.ts:52-62 | the refusal found follows only accepted calls; none is found only when all are accepted |
| Bot.FirstFailureAt | src/plugins/bff-api-plugin/server/src/services/bot.ts:52-62 | a refusal after a run of accepted calls is the one found |
| Bot.FirstFailureNone | src/plugins/bff-api-plugin/server/src/services/bot.ts:52-62 | when every call is accepted no refusal is found |
| Bot.DeliverIssuesPrefix | src/plugins/bff-api-plugin/server/src/services/bot.ts:52-63 | the calls issued are a prefix of the planned ones, all of them on success |
| Bot.SendChunks | src/plugins/bff-api-plugin/server/src/services/bot.ts:52-63 | the loop issues the calls in chunk order and stops after the first refusal |
| Bot.SendText | src/plugins/bff-api-plugin/server/src/services/bot.ts:50-63 | the text is split and its chunks delivered |
| Bot.SendTelegramMessage | src/plugins/bff-api-plugin/server/src/services/bot.ts:45-64 | the method behaves as the specification function `SendMessage` |
| Bot.MessageCallFields | src/plugins/bff-api-plugin/server/src/services/bot.ts:53-60 | each call goes to the resolved chat, carries its chunk and turns link previews off |
| Bot.SendMessageDeliversText | src/plugins/bff-api-plugin/server/src/services/bot.ts:50-63 | a full send returns sent = number of chunks, the texts sent are exactly the chunks of the text and concatenate to it, each is 1 to 4096 long and every call goes to `chatId \|\| DEFAULT_CHAT_ID` |
| Bot.MessageCallExtras | src/plugins/bff-api-plugin/server/src/services/bot.ts:53-60 | `parse_mode` and `reply_markup` are in a call's body exactly when they were given |
| Bot.SendMessageCalls | src/plugins/bff-api-plugin/server/src/services/bot.ts:46-62 | whatever the outcome, the k-th call issued sends the k-th chunk to the resolved chat with the message's extras, and no call is made without a chat and a text |
| Bot.SendShortMessage | src/plugins/bff-api-plugin/server/src/services/bot.ts:46-62 | a text of at most 4096 characters is sent in one call, and the send fails exactly when that call is refused |
| Bot.SendMessageOutcome | src/plugins/bff-api-plugin/server/src/services/bot.ts:46-62 | a send of a non-empty text succeeds with every call accepted, or fails with "chatId required" before any call, or with the refusal of its last call after accepted ones |
| Bot.SendMessageStopsAtFailure | src/plugins/bff-api-plugin/server/src/services/bot.ts:46-62 | no chat gives "chatId required", no text gives "text required", both before any call; a refused send stops at the refused call after accepted ones |
| Bot.SendMessageOnlySends | src/plugins/bff-api-plugin/server/src/services/bot.ts:53 | every call a send issues is a `sendMessage` |
| Bot.HandleTelegramUpdate | src/plugins/bff-api-plugin/server/src/services/bot.ts:81-182 | the method behaves as the dispatch function `Handle`, errors included |
| Bot.AcceptAnswersFirst | src/plugins/bff-api-plugin/server/src/services/bot.ts:93-115 | the agreement button first answers the query; a refused answer ends with its error; after an accepted one the invitation with the WebApp keyboard is sent in one call to the resolved chat and decides the answer, or "chatId required" without a chat |
| Bot.StartReplies | src/plugins/bff-api-plugin/server/src/services/bot.ts:158-174 | "/start" sends exactly one call to the resolved chat, with the agreement text, parse mode "HTML" and the accept keyboard, and answers with its outcome; without a chat it answers "chatId required" |
| Bot.GetChatIdReplies | src/plugins/bff-api-plugin/server/src/services/bot.ts:151-156 | "/getchatid" sends "Ваш chat_id: " and the message's chat id to the resolved chat, without parse mode or keyboard, and answers with the outcome of that send |
| Bot.HandleReportsErrors | src/plugins/bff-api-plugin/server/src/services/bot.ts:81-182 | the handler never throws: `{ ok: true }` means every call issued was accepted; `{ ok: false }` carries a callback query without a message, a missing chat, or the refusal of the last call issued |
| Bot.QuietOtherwise | src/plugins/bff-api-plugin/server/src/services/bot.ts:86-177 | only the agreement button and a trimmed "/getchatid" or "/start" make calls; a callback query without a message answers with that error; anything else answers `{ ok: true }` without a call |
| Media.OrNull | src/plugins/bff-api-plugin/utils/nomalize-image.ts:12-13 | `v \|\| null` keeps a truthy value and turns a falsy one into null |
| Media.NormalizeImage | src/plugins/bff-api-plugin/utils/nomalize-image.ts:8-15 | null exactly for a missing entry; url and alt kept when truthy, null otherwise |
| Media.NormalizeIgnoresRest | src/plugins/bff-api-plugin/utils/nomalize-image.ts:11-14 | the other fields of the entry do not matter |
| OrgChart.FirstDefined | src/plugins/bff-api-plugin/server/src/services/service.ts:19 | an `??` chain ending in null yields null or one of its values, and a nullish value only when all are |
| OrgChart.FirstDefinedCons | src/plugins/bff-api-plugin/server/src/services/service.ts:23 | the chain is `??` applied from the left |
| OrgChart.FirstDefinedFour | src/plugins/bff-api-plugin/server/src/services/service.ts:19 | the four-key chain of a duty record |
| OrgChart.ShortName | src/plugins/bff-api-plugin/server/src/services/service.ts:8-14 | blank first name: the trimmed last name ("" when both are blank); otherwise the first name's initial, "." and the trimmed last name; always trimmed |
| OrgChart.InitialTrimmed | src/plugins/bff-api-plugin/server/src/services/service.ts:13 | the final `trim()` changes nothing |
| OrgChart.DutyText | src/plugins/bff-api-plugin/server/src/services/service.ts:16-20 | a non-empty string stays, any other bare value is null, a record gives its first defined text, title, name or value |
| OrgChart.ParentKey | src/plugins/bff-api-plugin/server/src/services/service.ts:24-30 | a parent key exists only when the chief gives a truthy id: the bare value, or the record's first defined id |
| OrgChart.AvatarUrl | src/plugins/bff-api-plugin/server/src/services/service.ts:32-33 | the image is the avatar's truthy url, or "/avatar.png" |
| OrgChart.TrimmedPiecesHas | src/plugins/bff-api-plugin/server/src/services/service.ts:45-47 | the tags are exactly the non-empty trimmed pieces, each comma-free |
| OrgChart.TagsAreClean | src/plugins/bff-api-plugin/server/src/services/service.ts:45-47 | tags are non-empty, trimmed and comma-free, and a string is a tag exactly when it is a trimmed piece of the comma-split field |
| OrgChart.DutyTextsHas | src/plugins/bff-api-plugin/server/src/services/service.ts:35-37 | the responsibilities are exactly the truthy normalised duties |
| OrgChart.MapEmployeeShape | src/plugins/bff-api-plugin/server/src/services/service.ts:22-51 | an employee node has the first defined id, a parent key exactly as the chief gives one, a trimmed short name, the position or null, a truthy image, clean tags, truthy responsibilities and the project when truthy |
| OrgChart.MapProjectShape | src/plugins/bff-api-plugin/server/src/services/service.ts:53-67 | a project node has tags ["project"], title null, no responsibilities, no parent and a truthy image, and projects = [name] exactly when the name is non-empty |
| OrgChart.EmployeeNodes | src/plugins/bff-api-plugin/server/src/services/service.ts:126-131 | one node per employee |
| OrgChart.EmployeeNodesStep | src/plugins/bff-api-plugin/server/src/services/service.ts:126-130 | one inner-loop step appends the next employee's node |
| OrgChart.GroupsNodesStep | src/plugins/bff-api-plugin/server/src/services/service.ts:116-133 | one middle-loop step appends the next group's nodes |
| OrgChart.AppendGroup | src/plugins/bff-api-plugin/server/src/services/service.ts:117-132 | one group appends its leader node and then its employees' nodes, or nothing without a leader |
| OrgChart.AppendProject | src/plugins/bff-api-plugin/server/src/services/service.ts:111-133 | one project appends its node and then its groups' nodes |
| OrgChart.GetProjectsStructure | src/plugins/bff-api-plugin/server/src/services/service.ts:110-135 | the nested loops produce the preorder chart `Structure` |
| OrgChart.GroupsNodesLength | src/plugins/bff-api-plugin/server/src/services/service.ts:116-133 | a group list contributes one node per leader and per employee of a led group |
| OrgChart.StructureLength | src/plugins/bff-api-plugin/server/src/services/service.ts:110-135 | the chart has #projects + the sum of (1 + #employees) over groups with a leader nodes |
| OrgChart.GroupNodesLinks | src/plugins/bff-api-plugin/server/src/services/service.ts:119-129 | the leader's id is its mapped id + 100000000 and its parent the project; every employee's parent is the new leader id; all take the project's projects |
| OrgChart.EmployeeNodesLinks | src/plugins/bff-api-plugin/server/src/services/service.ts:128-129 | employees point to the leader and take the project's projects |
| OrgChart.GroupParents | src/plugins/bff-api-plugin/server/src/services/service.ts:117-131 | inside a group every parent is the project or a node emitted earlier |
| OrgChart.GroupsParents | src/plugins/bff-api-plugin/server/src/services/service.ts:116-133 | the same across all groups of a project |
| OrgChart.ProjectParents | src/plugins/bff-api-plugin/server/src/services/service.ts:111-133 | a project's nodes only point to nodes emitted before them |
| OrgChart.StructureParentsPrecede | src/plugins/bff-api-plugin/server/src/services/service.ts:110-135 | every parent id in the chart is the id of a node that comes earlier |
| OrgChart.OffsetIdCollisionFree | src/plugins/bff-api-plugin/server/src/services/service.ts:120 | an offset numeric id never equals an id below 100000000, and two different numeric or string ids stay different after the offset |
| OrgChart.GetGlobalConfig | src/plugins/bff-api-plugin/server/src/services/service.ts:139-151 | no document: id null, empty people graph, no projects key; otherwise the first defined id and each graph or its empty default |

## Left out

- Network I/O is not modelled. This covers `speechToText`, the POST of `ask`, `textToSpeech`,
  the voice service's own `sendTelegramMessage` and the `fetch` in `tgCall`.
  - The Bot API's answer is the parameter `reply`.
  - The outcome of each remote call of a voice request is an input of `AskVoice`. The
    transcript is "" when speech-to-text fails, and the answer is "" when the model call
    fails. `relayOk` says whether the relay accepted the fast path's message, and `speechOk`
    whether speech synthesis answered 200.
  - The audio is represented by the text spoken.
- The document store is not modelled: `getInstructions`, `saveMemory`, `getEmployees`, the
  queries themselves and the create, update and publish steps of `patchGlobalConfig`. Their
  results are inputs: sequences of records, an optional document. The memory query inside
  `ask` is the input `memory` of `AskVoice`, None when the query failed, and `GetMemory`
  turns None into no turns. Which records the sorted query returns when the log is known
  is modelled by `NewestFirst`.
- `validateAnswer` and `validateCommand` in `utils/assistant.ts` are left out. Their results
  are whatever a remote language model says, and the pipeline does not call them.
- `sendTelegramDocument` is left out. It is one `tgCall` with the checks of
  `sendTelegramMessage` and adds no behaviour of its own.
- Controllers, routes, logging, secrets and URLs are framework glue and are not modelled.
- Text.Lower lower-cases only Latin A-Z and Cyrillic U+0400-U+042F, one character for one.
  It stands for `toLowerCase` in `detectLocalCommand` and for the `i` flag of the label
  regular expression in `simpleClean`, through `StartsWithFolded`. The rest of Unicode
  case mapping is not modelled. Its length-keeping ensures holds only for this subset:
  `toLowerCase` maps "İ" (U+0130) to two code units, and the `i` flag folds case by
  upper-casing rather than lower-casing.
- Voice.Normalize lower-cases only Latin A-Z and Cyrillic U+0400-U+042F. The rest of
  Unicode `toLowerCase` is not modelled.
- Voice.LocalPatterns: the regular expressions are a table of prefix matchers, tried with
  greedy runs and no backtracking. This is exact for this table, because every run is
  followed by a character outside its class. General regular-expression semantics are not
  modelled.
- Bot.TgCall: a body that is not JSON is modelled as `ok` false with no description.
- Bot.BotError: errors are a datatype rather than thrown exceptions. The handler reports
  the message of each error.
- Bot.NoMessageError: the text of the TypeError for a callback query without a message is
  the V8 wording; other engines word it differently.
- Bot.MarkupJson serialises only inline keyboards whose buttons carry `callback_data` or a
  `web_app` url, the two kinds the handler sends. It escapes quotes, backslashes and control
  characters but not lone surrogates, which `JSON.stringify` would also escape.
- Bot.SplitText requires a positive size. A size of 0 or less never ends in the source;
  the only caller passes 4096.
- Voice.ScanPatterns, Bot.SendChunks, Bot.SendText, OrgChart.AppendGroup and
  OrgChart.AppendProject are the inner loops of their functions, written as separate
  methods. The order of the steps is unchanged.
- OrgChart.Employee: array elements that are null or not documents, and groups that are
  null, are not modelled. Each list holds documents, and a missing or non-array list is none.
- OrgChart.OffsetId: `undefined + 100000000` is NaN in JavaScript and is not modelled. A
  mapped id falls back to null, so it never arises.
- Js.Value: numbers are integers. Floating point is not modelled.
- Voice.AskVoice: `saved` lists the memory writes attempted. `saveMemory` logs a failed
  create or publish and returns, so the request goes on either way. A failed write shows
  only in what a later memory query returns, which is the input `memory`. The log itself
  is not part of the state of `AskVoice`.
- Voice.AskVoice: errors are fixed texts. The HTTP status in "… failed: <status>" and the
  error object the relay rethrows are not modelled, and a relay that cannot be reached
  fails like one that answers with an error status.
- Voice.SimpleClean counts length in Unicode scalar values, while JavaScript's `length`
  counts UTF-16 code units. A character outside the Basic Multilingual Plane counts once
  here and twice in the source, so "😀a" is rejected here and kept there.
- Voice.Cleaned counts length in Unicode scalar values, not UTF-16 code units.
- Voice.ShortCleanedNone counts length in Unicode scalar values, not UTF-16 code units.
- Bot.Chunks cuts every 4096 Unicode scalar values, where `slice` cuts every 4096 UTF-16
  code units. A text with characters outside the Basic Multilingual Plane can give fewer
  chunks here, and a character is never split into two lone surrogates.
- Bot.ChunksSizes measures chunks in Unicode scalar values, not UTF-16 code units.
- Bot.ChunksCount counts chunks of 4096 Unicode scalar values, not UTF-16 code units.
- Bot.SplitText, Bot.SendMessageDeliversText and Bot.SendShortMessage measure texts in
  Unicode scalar values, not UTF-16 code units, as `Bot.Chunks` does.
- OrgChart.ShortName takes the first Unicode scalar value as the initial. `charAt(0)`
  takes the first UTF-16 code unit, which is a lone surrogate for a name that starts outside
  the Basic Multilingual Plane.
- OrgChart.ShortName takes the names as strings. A missing name is "", as `first || ''`
  makes it.
- OrgChart.AvatarUrl: an avatar that is truthy but not an object is not modelled. It is
  either a media entry or none.
