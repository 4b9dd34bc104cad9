# Chat client core: action protocol, transcript steps and flow proxy

This project models, in Dafny, the logic of a Next.js chat client that sits
between a user, a language-model chat server and a flow-execution server.
Three pieces of it are modelled. Network outcomes are inputs to each.

1. **The action data model and the click-string protocol.**
   - An assistant message can carry actions: a button, a confirm dialog or a set of suggestion chips.
   - The action bar turns each action into the strings its buttons emit: `action`, `suggest:<item>`, `confirm:<title>`, `cancel:<title>`.
   - The chat page decodes a clicked string by stripping a leading `suggest:` and submits the result.
   - Actions, action lists, message-action records and parsed message data each have a JSON encoder and decoder, proved inverse in both directions.
   - `Message` itself is not decoded: a chat reply is taken to be a well-formed message (see "## Left out").
2. **The transcript steps.**
   - The chat page's `handleSubmit` and the terminal page's `handleSend` are pure step functions.
   - Each takes a state and the outcomes of the calls it makes, and returns the next state.
   - Lemmas cover the blank-input guard, append-only growth and the update of parsed data by id.
   - Lemmas also cover the action map, the error keys, and invariants kept over whole sessions.
3. **The two API routes with logic of their own.**
   - The mock `POST /api/parse` is a total function from the request body to a reply.
   - `POST /api/execute-flow` interprets the flow server's answer.
   - At its centre is a loop that scans the returned messages from the end. The first record that is either an assistant record or a serialised `AIMessage` constructor wins.
   - That loop is a method proved equal to a recursive reference definition.

Modules, one per source file or concern:

| module | file | models |
|---|---|---|
| `Wrappers` | wrappers.dfy | `Option` for `undefined` |
| `Json` | json.dfy | JSON values, field access, truthiness, route replies |
| `JsString` | js_string.dfy | `trim`, `startsWith`, `replace`, decimal rendering of a status |
| `ChatTypes` | chat_types.dfy | client/types/chat.ts and its JSON shape |
| `ChatActions` | chat_actions.dfy | client/components/chat/ChatActions.tsx |
| `ChatGreeting` | chat_interface.dfy | the chat page's opening greeting, verbatim |
| `ChatInterface` | chat_interface.dfy | client/components/chat/ChatInterface.tsx |
| `Terminal` | terminal.dfy | client/app/terminal/page.tsx |
| `ParseRoute` | parse_route.dfy | client/app/api/parse/route.ts |
| `ExecuteFlow` | execute_flow.dfy | client/app/api/execute-flow/route.ts |

Facts of the code that the model keeps as written:
- client/types/chat.ts:29 declares three button variants, `default`, `primary` and `destructive`. There is no fourth variant.
- client/types/chat.ts:20 declares `sentimentLevel` as any number. No range is enforced, so the model allows any value.
- client/app/api/parse/route.ts:11-32 answers with fixed mock actions. No language model is asked and no answer is validated.
- client/app/api/execute-flow/route.ts:67-86 tests both record shapes on each element before moving to the previous one. So a later constructor record beats an earlier assistant record, and no shape is preferred. `ExecuteFlow.HighestIndexWins` states this.

The decoders in `ChatTypes` read a value exactly as its TypeScript interface declares it. They reject fields that the interface does not declare. TypeScript's structural typing would let such fields through. The closed reading is what makes each decoder the exact inverse of its encoder.

## Model

| member | source | states |
|---|---|---|
| `JsString.BlankIffAllSpace` | client/components/chat/ChatInterface.tsx:41 | `!s.trim()` holds exactly when every character of `s` is ECMAScript white space or a line terminator |
| `JsString.TrimStart` | client/components/chat/ChatInterface.tsx:41 | the result is a suffix of the input; everything removed is white space; the result does not start with white space |
| `JsString.TrimEnd` | client/app/terminal/page.tsx:34 | the result is a prefix of the input; everything removed is white space; the result does not end with white space |
| `JsString.IndexOfFrom` | client/components/chat/ChatInterface.tsx:123 | the search finds the first occurrence of the pattern at or after the start, or reports that none exists |
| `JsString.ReplacePrefix` | client/components/chat/ChatInterface.tsx:122-124 | when a string starts with the pattern, `replace(pattern, '')` removes exactly that leading occurrence |
| `JsString.DecimalString` | client/app/api/execute-flow/route.ts:32 | a status is rendered as a non-empty string of decimal digits without a leading zero |
| `JsString.DecimalRoundTrip` | client/app/api/execute-flow/route.ts:32 | reading the rendered digits back gives the status that was rendered |
| `JsString.DecimalInjective` | client/app/api/execute-flow/route.ts:32 | two different statuses never render as the same string |
| `ChatTypes.RoleNames` | client/types/chat.ts:4 | a wire role denotes a role exactly when it is `user` or `assistant`, each name denoting its own role |
| `ChatTypes.MessageTypeNames` | client/types/chat.ts:8 | the message types are exactly `standard`, `transfer` and `sentiment` |
| `ChatTypes.VariantNames` | client/types/chat.ts:29 | a button variant is exactly one of `default`, `primary`, `destructive` |
| `ChatTypes.ActionToJson` | client/types/chat.ts:25-45 | an action's JSON object carries exactly the fields of its variant, with `variant` only when the button has one |
| `ChatTypes.ActionFromJson` | client/types/chat.ts:25-45 | an accepted object has a string `type` tag, and the tag names the variant read |
| `ChatTypes.ActionRoundTrip` | client/types/chat.ts:25-45 | every action decodes back from its own encoding |
| `ChatTypes.ActionDecodeExact` | client/types/chat.ts:25-45 | an object decodes to an action only if it is that action's encoding, so the tag fixes the field set and a confirm carries all four strings |
| `ChatTypes.ActionsToJson` | client/types/chat.ts:45 | an action list is encoded element by element, in order |
| `ChatTypes.ActionsFromJson` | client/types/chat.ts:45 | a list is accepted exactly when every element is an action, and then it is read element by element in order |
| `ChatTypes.ActionsRoundTrip` | client/types/chat.ts:45 | every action list decodes back from its encoding |
| `ChatTypes.ActionsDecodeExact` | client/types/chat.ts:45 | an array decodes to an action list only if it is that list's encoding |
| `ChatTypes.MessageActionsToJson` | client/types/chat.ts:47-50 | the wire object has exactly the fields `messageId` and `actions` |
| `ChatTypes.MessageActionsFromJson` | client/types/chat.ts:47-50 | an accepted object has exactly the fields `messageId` and `actions`; the id read is its string, and the actions are the array's decoding |
| `ChatTypes.MessageActionsRoundTrip` | client/types/chat.ts:47-50 | a message-actions record decodes back from its encoding |
| `ChatTypes.MessageActionsDecodeExact` | client/types/chat.ts:47-50 | an object decodes to a message-actions record only if it is its encoding: one id paired with one action list |
| `ChatTypes.ParsedFields` | client/types/chat.ts:10-23 | parsed data always has `type` and `actions` fields; each optional field is present exactly when it is defined, with its value |
| `ChatTypes.ParsedToJson` | client/types/chat.ts:10-23 | the encoding always has `type` and `actions`, and only declared fields |
| `ChatTypes.ParsedFromJson` | client/types/chat.ts:22 | an object is accepted only with an `actions` array, and the actions read are that array's decoding |
| `ChatTypes.ParsedRoundTrip` | client/types/chat.ts:10-23 | parsed data decodes back from its encoding, with every optional field preserved |
| `ChatTypes.ParsedDecodeExact` | client/types/chat.ts:10-23 | an object decodes to parsed data only if it is that data's encoding, so no undeclared or mistyped field is accepted |
| `ChatActions.SuggestionClicks` | client/components/chat/ChatActions.tsx:27-32 | there is one click string per suggestion item, in order, and each is `suggest:` followed by the item |
| `ChatActions.ClickStrings` | client/components/chat/ChatActions.tsx:11-58 | a button emits its `action` verbatim; a suggestions action emits `suggest:<item>` per item; a confirm emits `confirm:<title>` then `cancel:<title>` |
| `ChatActions.Render` | client/components/chat/ChatActions.tsx:62 | the bar has one group of click strings per action, in the order of `actions.actions`, with nothing dropped or reordered |
| `ChatActions.DisplayFieldsDoNotReachHandler` | client/components/chat/ChatActions.tsx:16-21 | labels, variants and a confirm's button labels never affect what is emitted; only `action` and `title` do |
| `ChatInterface.InitialState` | client/components/chat/ChatInterface.tsx:10-37 | the page starts with the greeting alone, under id `1`, with no parsing indicator; an empty action record for id `1` only; nothing typed, nothing loading, no errors |
| `ChatInterface.EffectiveInputAsWritten` | client/components/chat/ChatInterface.tsx:40-41 | the value picked from the argument or, failing that, the input field cannot be trimmed exactly when the argument is a click event |
| `ChatInterface.EffectiveInput` | client/components/chat/ChatInterface.tsx:40 | a non-empty string argument is submitted; otherwise the input field is; this agrees with the code wherever the code does not throw |
| `ChatInterface.AttachParsedData` | client/components/chat/ChatInterface.tsx:84-90 | length and order are kept; messages with the reply's id get the parsed data; all others are unchanged |
| `ChatInterface.RecordActions` | client/components/chat/ChatInterface.tsx:93-101 | an empty action list leaves the map as it was; otherwise only the reply's id is written, with the record for that id |
| `ChatInterface.Submit` | client/components/chat/ChatInterface.tsx:39-118 | a guarded submit changes nothing; otherwise the input is cleared, loading ends false, and one user message with the untrimmed text is appended, plus the reply when the chat call succeeds. For a click-event argument it models the corrected handler, which submits the input field; the code as written throws there (`ChatInterface.SubmitAsWritten`, "## Findings") |
| `ChatInterface.SubmitIgnoredIff` | client/components/chat/ChatInterface.tsx:41 | a submit leaves the state unchanged if and only if the text is blank or a request is loading |
| `ChatInterface.BlankInputIgnored` | client/components/chat/ChatInterface.tsx:41 | text made only of white space is never submitted, whatever the calls would answer |
| `ChatInterface.SubmitKeepsEarlierMessages` | client/components/chat/ChatInterface.tsx:49-90 | earlier messages keep their id, content and role; only parsed data for the reply's id can reach them |
| `ChatInterface.ParsedDataAttachedById` | client/components/chat/ChatInterface.tsx:84-90 | after a successful parse, exactly the messages carrying the reply's id hold the parsed data; the rest match the pre-parse transcript |
| `ChatInterface.SubmitActionMap` | client/components/chat/ChatInterface.tsx:93-101 | the action map changes only for a parsed reply with at least one action, and then only at the reply's id |
| `ChatInterface.SubmitErrors` | client/components/chat/ChatInterface.tsx:52-113 | a send failure leaves only `general`; a parse failure leaves only the reply's id; success leaves no errors |
| `ChatInterface.GeneralKeyOnlyForSendFailure` | client/components/chat/ChatInterface.tsx:102-113 | `general` is set if and only if the chat call failed, or the parse failed for a reply whose id is literally `general` |
| `ChatInterface.ParseOutcomeDecidesIndicator` | client/components/chat/ChatInterface.tsx:140-144 | for a reply without parsed data, the parsing indicator stays on if and only if the parse failed |
| `ChatInterface.IndicatorAfterSubmit` | client/components/chat/ChatInterface.tsx:140-144 | after a submit the "Generating actions..." indicator is never on the user's line, and is on the reply exactly when the parse failed and the reply is an assistant message without parsed data whose id is not `1` |
| `ChatInterface.DecodeClick` | client/components/chat/ChatInterface.tsx:122-124 | a string that starts with `suggest:` loses exactly that prefix; any other string passes through verbatim |
| `ChatInterface.DecodeChangesOnlySuggestions` | client/components/chat/ChatInterface.tsx:122-124 | decoding changes a string if and only if it starts with `suggest:` |
| `ChatInterface.ClickRoundTrip` | client/components/chat/ChatActions.tsx:18-51 | decoding inverts the encoding: a chip gives back its item, confirm and cancel strings come back unchanged, and a button gives back its `action` when that does not start with `suggest:`. A button whose action is `suggest:a` submits `a` |
| `ChatInterface.ActionClick` | client/components/chat/ChatInterface.tsx:120-128 | a click submits its string with any leading `suggest:` removed |
| `ChatInterface.SuggestionClickSendsItem` | client/components/chat/ChatInterface.tsx:120-128 | clicking a chip whose item is not blank, while no request is loading, appends a user message whose content is that item. A blank chip such as `" "` submits nothing |
| `ChatInterface.EmptySuggestionSubmitsInputField` | client/components/chat/ChatInterface.tsx:40 | a chip with an empty item decodes to the falsy empty string, so the click submits the input field instead |
| `ChatInterface.SubmitAsWritten` | client/components/chat/ChatInterface.tsx:39-41 | with a click-event argument, the handler throws before any state update and the state stays as it was |
| `ChatInterface.SendButtonIgnoredAsWritten` | client/components/chat/ChatInterface.tsx:40-41 | as written, the send button submits nothing even with text typed, while the Enter key submits it |
| `ChatInterface.SendButtonMatchesEnterKey` | client/components/chat/ChatInterface.tsx:40 | once corrected, the send button submits the input field exactly as the Enter key does |
| `ChatInterface.InitialConsistent` | client/components/chat/ChatInterface.tsx:10-37 | the initial state has the greeting first, an action record filed under the greeting's own id, no errors, and no message showing the parsing indicator |
| `ChatInterface.SubmitKeepsOwned` | client/components/chat/ChatInterface.tsx:49-113 | after a submit, every action record and every error other than `general` is keyed by the id of a message in the transcript |
| `ChatInterface.SubmitPreservesConsistent` | client/components/chat/ChatInterface.tsx:39-118 | a submit keeps every action record under its own id and owned by a transcript message, keeps every non-`general` error owned the same way, leaves loading off, and keeps the assistant's message under id `1` first |
| `ChatInterface.StepPreservesConsistent` | client/components/chat/ChatInterface.tsx:120-128 | both handlers keep the session invariant |
| `ChatInterface.RunPreservesConsistent` | client/components/chat/ChatInterface.tsx:39-128 | every sequence of submits and clicks keeps the session invariant: action records under their own ids, each action record and each non-`general` error owned by a transcript message, loading off, the assistant's message under id `1` first |
| `ChatInterface.RunKeepsFirstMessage` | client/components/chat/ChatInterface.tsx:39-128 | no sequence of submits and clicks changes the first message's id, text or role; only parsed data attached by id can reach it |
| `ChatInterface.SessionKeepsGreeting` | client/components/chat/ChatInterface.tsx:10-37 | in every session from the initial page, the greeting stays first with its text unchanged |
| `Terminal.InitialState` | client/app/terminal/page.tsx:23-31 | the page starts with the welcome line alone, from the assistant under id `1`, with nothing typed and nothing loading |
| `Terminal.RejectionMessage` | client/app/terminal/page.tsx:56-57 | the thrown message is the server's `error` text when it is a non-empty string, else `Request failed`; it is never empty |
| `Terminal.ReplyContent` | client/app/terminal/page.tsx:62-75 | an answer is shown verbatim; a failure is shown as the apology followed by the error message |
| `Terminal.Send` | client/app/terminal/page.tsx:33-79 | a blank input changes nothing; otherwise the transcript grows by the user line with the input verbatim and then one assistant line, whose text is the answer or the apology with the error; the input is cleared and loading ends false |
| `Terminal.SendIgnoredIff` | client/app/terminal/page.tsx:34 | a send leaves the page unchanged if and only if the input is blank |
| `Terminal.FailureIsReported` | client/app/terminal/page.tsx:54-75 | a rejected send's assistant line starts with the apology, and the rest is the server's error or `Request failed` |
| `Terminal.InitialWellFormed` | client/app/terminal/page.tsx:23-29 | the initial transcript is the single welcome line with id `1`, and it has the transcript shape that every send keeps |
| `Terminal.SendPreservesWellFormed` | client/app/terminal/page.tsx:42-75 | a send keeps the transcript as the welcome line followed by user/assistant pairs with non-blank user lines |
| `Terminal.RunWellFormed` | client/app/terminal/page.tsx:33-79 | every sequence of sends, whatever their outcomes, keeps that shape |
| `ParseRoute.MockParse` | client/app/api/parse/route.ts:12-32 | the result carries the requested message id and the fixed actions |
| `ParseRoute.Post` | client/app/api/parse/route.ts:4-41 | the route answers 200 exactly for a readable non-null body; that reply holds the fixed actions and echoes the request's `messageId`, and has no other field; every other path gives the fixed 500 error reply |
| `ParseRoute.PostAnswersMockParse` | client/app/api/parse/route.ts:6-34 | for a string `messageId`, the reply decodes as a message-actions record for that id with the fixed actions |
| `ParseRoute.ContentIgnored` | client/app/api/parse/route.ts:6-34 | two requests with the same `messageId` get the same reply, whatever their content |
| `ParseRoute.MockActionsClicks` | client/app/api/parse/route.ts:14-31 | the fixed actions offer exactly the clicks `proceed`, `cancel` and three `suggest:` strings; the suggestions stay within four items |
| `ParseRoute.ReplyIsNotParsedData` | client/components/chat/ChatInterface.tsx:80-87 | the route's reply, which the client stores as `parsedData`, never decodes as parsed message data |
| `ExecuteFlow.LastAiMessage` | client/app/api/execute-flow/route.ts:67-86 | the scan stops at the highest index holding an AI record or a `null`; everything after that index is passed over |
| `ExecuteFlow.ConstructorShapeIsStrict` | client/app/api/execute-flow/route.ts:77-82 | the constructor test is strict: `lc` must be the number 1 and `type` the string `constructor`, `id` must be an array, and `AIMessage` counts at any position in it |
| `ExecuteFlow.ScanStopIsUnique` | client/app/api/execute-flow/route.ts:67-86 | at most one stopping point fits a list |
| `ExecuteFlow.FindLastAiMessage` | client/app/api/execute-flow/route.ts:67-86 | the loop from the last index downward stops where the reference definition does |
| `ExecuteFlow.HighestIndexWins` | client/app/api/execute-flow/route.ts:71-85 | an AI record with no `null` after it is never beaten by an earlier record of either shape |
| `ExecuteFlow.SelectedContent` | client/app/api/execute-flow/route.ts:89-97 | an assistant record yields its `content`, even when absent; a constructor record yields `kwargs.content`, or the placeholder when that is null or undefined |
| `ExecuteFlow.LastAiContent` | client/app/api/execute-flow/route.ts:88-97 | with no AI record in the list, the extracted text is the placeholder; otherwise it is the content selected from the record the scan stopped at |
| `ExecuteFlow.MessagesOf` | client/app/api/execute-flow/route.ts:65 | a missing or falsy `messages` field gives the scan an empty list; an array `messages` is scanned as its own elements |
| `ExecuteFlow.FailureReply` | client/app/api/execute-flow/route.ts:31-34 | a failure reply has status 500, `success: false` and the given error text |
| `ExecuteFlow.SuccessReply` | client/app/api/execute-flow/route.ts:99-103 | a success reply has status 200, `success: true`, the server's `messages` as `allMessages`, and the content as `lastAiMessage` |
| `ExecuteFlow.Respond` | client/app/api/execute-flow/route.ts:6-114 | the reference decision answers only 200 or 500; a 200 reply says `success: true`; a non-OK status always yields an `error` text |
| `ExecuteFlow.FailureBodies` | client/app/api/execute-flow/route.ts:39-113 | each failure path answers `success: false` with its own text: a failed request gives its message or `Unknown error in proxy route`; an unparseable body gives `Failed to parse JSON from external server`; a `null` body gives the TypeError message of reading `success`, and a `null` record met by the scan that of reading `role` |
| `ExecuteFlow.Post` | client/app/api/execute-flow/route.ts:6-114 | the handler, with its scan done by the loop, answers exactly as the reference decision does |
| `ExecuteFlow.SuccessIff` | client/app/api/execute-flow/route.ts:27-103 | the proxy answers 200 if and only if the server answered OK with a parseable non-null body whose `success` is truthy and the scan meets no `null`; every other reply is 500 |
| `ExecuteFlow.NonOkReportsStatus` | client/app/api/execute-flow/route.ts:27-35 | a non-OK status gives `Non-OK status: ` followed by the status in decimal, which reads back as that status |
| `ExecuteFlow.FalsySuccessPassesThrough` | client/app/api/execute-flow/route.ts:59-62 | a falsy `success` sends the server's body back unchanged with status 500 |
| `ExecuteFlow.SuccessReplyContents` | client/app/api/execute-flow/route.ts:65-103 | a success reply carries `messages` unchanged and the extracted text; with no `messages` field the text is the placeholder |
| `ExecuteFlow.ExtractionExamples` | client/app/api/execute-flow/route.ts:67-97 | an assistant record gives its content and a constructor record its `kwargs.content`; a list with neither gives the placeholder; a later constructor beats an earlier assistant |

## Left out

- JSX rendering and styling are not modelled: markdown, syntax highlighting, the sidebar, top bar, layout, footer and transfer card. They hold no logic beyond what is modelled here.
- `ChatInput`'s keyboard handling and textarea resizing are not modelled. Only the one fact behind the finding below is used: the send button passes its click event.
- `fetch`, `Request.json()`, `Response.json()` and `NextResponse` are not modelled as I/O. They become outcome parameters: a failure, or a parsed value.
- Console logging and the parse route's 500 ms `setTimeout` delay are left out. Neither affects any result.
- Ids from `Date.now()` are parameters. Nothing assumes they are unique: two ids minted in the same millisecond can collide. `AttachParsedData` shows what a collision does.
- React's state batching and async interleaving are not modelled. Each handler is one sequential step. So a state with `isLoading` set is reachable only if it is given as the starting state.
- The props `isLoading` and `error` that the chat page passes for each message are not modelled. `ChatMessage` ignores both, so neither reaches the screen.
- client/app/api/chat/route.ts, client/app/api/flows/route.ts and client/app/api/flows/[id]/route.ts are not part of this model. They are thin proxies.
- The external chat server, the flow server and the flow store are not part of this model.
- ChatInterface.Submit: a chat reply is taken to be a well-formed `Message`. The code would also accept a body of another shape, for example one without an `id`.
- ChatInterface.Submit: a successful parse is taken to yield a `ParsedMessageData`, whose `actions` is always present. Two cases are not modelled: `parsedData.actions?.length` on a reply without `actions`, and the TypeError a `null` reply raises after the transcript update.
- Terminal.ReplyContent: `data.answer` and `errData.error` are taken to be strings, or, for the error, absent. A non-string value, which `String()` would convert, is not modelled.
- ExecuteFlow.MessagesOf: a truthy `messages` value that is not an array is treated as an empty list. For strings, numbers and booleans this is what the loop does. An object with a numeric `length` field would instead be scanned by index, and that case is not modelled.
- ExecuteFlow.Respond: `externalRes.text()` on the non-OK path is not modelled. If it rejected, the outer `catch` would answer instead.
- ExecuteFlow.Respond: a thrown error's message comes from the runtime, so it is a parameter. `nullBodyError` is the TypeError message for reading `success` of a `null` body. `nullRecordError` is the one for reading `role` of a `null` record. The `message` of the `Upstream` case `RequestFailed` is the error of a rejected request body or fetch. The exact wording of the runtime's messages is not modelled.
- ParseRoute.Post: the route's request body is taken to be JSON. The one throwing destructuring modelled is `{ content, messageId }` from `null`.

## Findings

| source | as written | input that shows it | evidently intended | confidence | as-written member | corrected member |
|---|---|---|---|---|---|---|
| client/components/chat/ChatInterface.tsx:40-41 | The send button in client/components/chat/ChatInput.tsx:56 calls `onSubmit` with its click event. Choosing the argument over the input field, the handler then picks the event, which is truthy, over the typed text. `.trim()` on the event throws before any state changes, so the click submits nothing. | input `hello`, no request loading, send button clicked | the button submits the input field, as the Enter key does | high (not executed) | `ChatInterface.SendButtonIgnoredAsWritten` | `ChatInterface.SendButtonMatchesEnterKey` |
