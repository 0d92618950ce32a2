# Medical research chat page, modelled in Dafny

This project models the logic of the chat page of a small Next.js medical
research assistant (`src/app/chat/page.js`): the routine that breaks every
message into display paragraphs, the conversation state and its
transitions when a message is sent, the prompt sent to the completion
provider, the gateway that turns any provider failure into a fixed apology,
the Enter-key filter, and the effect that sends a query passed in the URL.

Modules, one per concern of the page:

- `Text` — JavaScript's `\s` whitespace class, `String.prototype.trim`,
  `length` in UTF-16 code units, and joining sentences with one space.
- `Sentences` — `text.split(/(?<=\.)\s+/)`, following the split loop of
  ECMAScript's `@@split`: a boundary is a maximal whitespace run whose first
  character follows a `.`, and the empty string splits into `[""]`.
- `Paragraphs` — `splitTextAfterPeriods`: the method `SplitTextAfterPeriods`
  keeps the page's `forEach` loop and is proved equal to the function
  `Paragraphs`, about which the partition and length properties are proved.
- `Gateway` — turns and roles, the prompt (`Prompt`), and the mapping of a
  provider outcome to reply text (`Reply`).
- `Session` — the class `ChatSession` with the state cells `messages`,
  `input` and `loading`. `sendMessage` is split at its `await` into `Begin`
  and `Complete`; `inFlight` holds the user turns of the calls still waiting
  for the provider, so overlapping sends can be expressed even though the
  page only prevents them in the user interface.

Two properties of the code shape the session model:

- The code appends the user turn twice: once as soon as the message is
  sent, and again together with the reply. One completed exchange therefore
  adds three turns, and a page opened with a query ends with the query turn
  three times followed by the reply.
- `sendMessage` never looks at `loading`. A second send while one is
  waiting is prevented only because the input and the button are disabled
  while loading. The user events (`Type`, `PressKey`, `Click`) therefore
  require `!loading`, while `Begin` and `Complete` accept any state.
  `Valid()`, "at most one send outstanding, exactly while loading", is kept
  by the guarded events and not by `Begin` alone.

## Model

| member | source | states |
|---|---|---|
| Text.IsSpace | src/app/chat/page.js:31 | the whitespace class `\s`, also the set `trim` removes: ECMAScript WhiteSpace and LineTerminator code points |
| Text.Trim | src/app/chat/page.js:47 | the trimmed string is no longer than the input and neither starts nor ends with whitespace |
| Text.TrimSlice | src/app/chat/page.js:47 | what `trim` keeps is one slice of the input, and everything before and after it is whitespace |
| Text.TrimCases | src/app/chat/page.js:46-47 | a whitespace-only string trims to `""`; a string without surrounding whitespace trims to itself |
| Text.TrimLength | src/app/chat/page.js:40 | trimming never makes a string longer |
| Text.Length | src/app/chat/page.js:36 | `length` counts UTF-16 code units: between one and two per character |
| Text.LengthBmp | src/app/chat/page.js:36 | for text inside the Basic Multilingual Plane `length` is the number of characters |
| Text.LengthConcat | src/app/chat/page.js:36 | the `length` of `currentParagraph + sentence` is the sum of the two lengths |
| Text.JoinEmpty | src/app/chat/page.js:37 | a join is empty exactly for no sentence or one empty sentence |
| Text.Join | src/app/chat/page.js:37 | sentences written one after the other with a single space between neighbours; one sentence joins to itself |
| Text.JoinAppend | src/app/chat/page.js:37 | appending a sentence to a nonempty paragraph adds one space and the sentence, and adds their lengths |
| Sentences.SplitFrom | src/app/chat/page.js:31 | the split loop of `@@split` for the pattern: a piece ends at each boundary and the whitespace run after it is consumed |
| Sentences.Split | src/app/chat/page.js:31 | the sentences of a text; `""` gives `[""]` |
| Sentences.RunEnd | src/app/chat/page.js:31 | the greedy `\s+` consumes whitespace only and stops at the first non-whitespace character or the end |
| Sentences.SplitReassembles | src/app/chat/page.js:31 | the sentences, with the consumed whitespace runs put back, give the text again; every sentence but the last is nonempty and ends in `.`; no sentence after the first starts with whitespace; no sentence holds a boundary |
| Sentences.SplitSingle | src/app/chat/page.js:31 | the split is the one-element sequence of the text exactly when the text holds no boundary |
| Sentences.SplitTwo | src/app/chat/page.js:31 | `"A. B."` splits into `"A."` and `"B."` |
| Sentences.SplitThree | src/app/chat/page.js:31 | `"A. B. C."` splits into three sentences, each keeping its period |
| Paragraphs.PackFrom | src/app/chat/page.js:35-48 | the `forEach` from a given `currentParagraph`, followed by the final push |
| Paragraphs.Paragraphs | src/app/chat/page.js:30-51 | the paragraphs `splitTextAfterPeriods` returns: the packing of the split |
| Paragraphs.SplitTextAfterPeriods | src/app/chat/page.js:30-51 | the loop returns exactly the paragraphs the specification `Paragraphs` gives |
| Paragraphs.ParagraphsAreRuns | src/app/chat/page.js:31-48 | every paragraph is the trimmed single-space join of a run of consecutive sentences; the runs cover the sentences in order, leaving over at most an empty last sentence; a sentence joined a run only when the run's untrimmed text plus the sentence fit in `maxLength`, and a run was closed only when the next sentence did not fit |
| Paragraphs.ParagraphLengths | src/app/chat/page.js:36-42 | a paragraph of two or more sentences is at most `maxLength + 1` long; a sentence longer than `maxLength` is a paragraph on its own, trimmed and not cut |
| Paragraphs.RunLength | src/app/chat/page.js:36-42 | the same two bounds for one run that passed the length tests |
| Paragraphs.FitsSentences | src/app/chat/page.js:36 | in a run of two or more sentences every sentence passed the test, so none is longer than `maxLength` |
| Paragraphs.JoiningSpaceNotMeasured | src/app/chat/page.js:36-37 | the bound `maxLength + 1` is reached: two sentences whose lengths add up to `maxLength` make one paragraph one longer, by the joining space |
| Paragraphs.EmptyTextNoParagraphs | src/app/chat/page.js:31-50 | empty text gives no paragraph at all |
| Paragraphs.SingleSentenceText | src/app/chat/page.js:31-50 | a nonempty text without a boundary gives exactly one paragraph, the trimmed text, for every `maxLength`; a whitespace-only text gives `[""]` |
| Paragraphs.EachSentenceAlone | src/app/chat/page.js:36-42 | three sentences without surrounding whitespace, no two neighbours fitting together, give three paragraphs, one each |
| Paragraphs.ThreeSentencesAtMaxThree | src/app/chat/page.js:30-51 | `"A. B. C."` with `maxLength` 3 gives the paragraphs `"A."`, `"B."` and `"C."` |
| Gateway.SystemInstruction | src/app/chat/page.js:93 | the fixed instruction sent first in every prompt |
| Gateway.FallbackReply | src/app/chat/page.js:26 | the fixed apology returned in place of a reply when the provider call fails |
| Gateway.WireRole | src/app/chat/page.js:96 | a role is sent as `user` exactly when it is `user`, otherwise as `assistant`, never as `system` |
| Gateway.MapRoles | src/app/chat/page.js:95-98 | the mapped turns keep their number, order and content, each with its role mapped |
| Gateway.Prompt | src/app/chat/page.js:89-99 | the prompt has two more turns than the transcript: the fixed system instruction first, then the transcript and the new turn in order with content unchanged and roles mapped, with no system turn after the first |
| Gateway.Reply | src/app/chat/page.js:23-26 | a failed call gives the fixed apology, a response without content gives `""`, and otherwise the reply is the content |
| Session.FirstTurnIsUser | src/app/chat/page.js:83 | a nonempty transcript of the kept shape starts with a user turn |
| Session.TranscriptAppendUser | src/app/chat/page.js:83 | appending a user turn keeps the transcript shape |
| Session.TranscriptAppendExchange | src/app/chat/page.js:103 | appending the last user turn again and the reply keeps the transcript shape: every assistant turn follows two copies of the user turn it answers |
| Session.TranscriptOfQuery | src/app/chat/page.js:68-69 | the transcripts the query effect leaves have that shape |
| Session.FirstPrompt | src/app/chat/page.js:89-99 | the prompt for the first turn of an empty transcript is the system instruction and that turn |
| Session.ChatSession.constructor | src/app/chat/page.js:61-63 | the session starts with no turns, an empty draft, not loading, and nothing waiting |
| Session.ChatSession.Begin | src/app/chat/page.js:79-99 | blank text changes nothing and sends nothing; otherwise the user turn, untrimmed, is appended, the draft is cleared, `loading` is set, and the prompt built from the transcript before the append is sent |
| Session.ChatSession.Complete | src/app/chat/page.js:101-108 | the waiting call's user turn is appended again with the reply, the call stops waiting, and `loading` is cleared whatever is still waiting |
| Session.ChatSession.SendMessage | src/app/chat/page.js:79-109 | a whole send: blank text changes nothing; otherwise the transcript becomes `old ++ [u, u, reply]`, the draft is cleared and `loading` ends false in every outcome |
| Session.ChatSession.Type | src/app/chat/page.js:175 | typing replaces the draft and nothing else |
| Session.ChatSession.PressKey | src/app/chat/page.js:73-77 | only the Enter key sends the draft; any other key changes nothing |
| Session.ChatSession.Click | src/app/chat/page.js:182 | the Send button sends the draft |
| Session.ChatSession.LoadQuery | src/app/chat/page.js:65-71 | an absent or empty query does nothing; a nonempty one replaces the transcript with its user turn, and unless it is blank sends it, leaving it twice in the transcript, with the prompt built from the transcript the effect captured |
| Session.OpenWithQuery | src/app/chat/page.js:65-71 | a page opened with a query whose send completes ends with the query turn three times and the reply, not loading, and the provider saw only the system instruction and the query |

## Left out

- Rendering, styling, the spinner and the Suspense wrapper: presentation only.
- The Groq client, the API key, the network call and its generation
  parameters: the provider's outcome is a parameter (`ProviderOutcome`).
- `console.error` logging: output with no effect on state.
- `useSearchParams` and `decodeURIComponent`: the query reaches
  `LoadQuery` already read and decoded; `src/app/utils/useSearchQuery.js` is
  not part of this model.
- A query that fails to decode is not modelled: a stray `%` left after
  `searchParams.get` (a query such as `50% of`) makes `decodeURIComponent`
  throw, and the effect then neither sets the transcript nor sends.
- React scheduling: state updates are applied at once and in order, an
  effect runs once for the query it is given, and StrictMode's doubled
  effects are not modelled. A later change of the query while a send is
  waiting is not modelled either.
- The `catch` around the send: the gateway never throws, so that branch
  cannot be reached and `Complete` always appends the reply.
- Only the default `maxLength` of 500 is used by the page; the model proves
  its properties for every `maxLength`.
- Session.ChatSession.Begin: promises `Valid()` only when called while not
  loading, because the source's `sendMessage` does not check `loading` itself.
