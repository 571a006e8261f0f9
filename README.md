# Progress Notes: AI layer and note list

This project models the core of a small note-taking web app. Each note has
a title, a content text and a progress percentage. The app can ask a hosted
language model (Gemini) to answer questions about the notes, or to write a
new note on a topic.

Two source files are modelled:

- `lib/gemini.ts` is the AI layer, modelled in `gemini.dfy` (module `Gemini`):
  - `generateWithGemini` checks the API key, sends one prompt and wraps
    provider failures.
  - `chatWithNotes` runs two guards, renders the notes into a context,
    fills the prompt template and passes the provider's answer through
    unchanged.
  - `generateNote` runs the topic guard and sends the generation prompt.
    It then trims the answer, cuts out the greedy `{…}` span and parses it.
    It checks title, content and progress in that order, then trims the
    strings and rounds the progress. Inner failures all become one message.
- `app/page.tsx` is the page state, modelled in `page.dfy` (module `Page`).
  The class `Page.Home` holds the note list and the three form fields. Its
  methods are `addNote`, `deleteNote`, `updateProgress` and the append that
  runs when the generator hands over a note. Each method's new state is
  stated through the pure functions `WithoutId` and `WithProgress`. Lemmas
  over those functions prove order, idempotence, length, interaction and
  range preservation.

Supporting modules:

- `text.dfy` (module `Text`) models the JavaScript built-ins the core
  relies on:
  - `String.prototype.trim`, over ECMAScript's WhiteSpace and
    LineTerminator code points;
  - `Array.prototype.join`;
  - how an integral number renders inside a template literal.
- `types.dfy` holds the two record types.
- `wrappers.dfy` holds `Option` and `Result`.
- `scenarios.dfy` works through concrete responses:
  - prose around a JSON object;
  - a progress of 150;
  - text that is not JSON;
  - a stub provider answering a chat.

What the model takes as parameters:

- The Gemini SDK is a function `provider: string -> ProviderOutcome`. A
  request either completes with a text, throws an `Error` with a message,
  or throws something else.
- The environment variable is `key: Option<string>`.
- `JSON.parse` is a function `parse: string -> Option<JsonValue>`, where
  `None` means it threw.
- Every result is a `Reply` that also records the prompts sent to the
  provider. "No request was made" is therefore `sent == []`.
- Thrown `GeminiError`s are `Err(GeminiError(message))` values.

Where the code and its intended behaviour differ, the model follows the
code:

- The title and content checks at `lib/gemini.ts:98-103` test the untrimmed
  string. A title of white space only therefore passes and comes out as ""
  after trimming (`Gemini.BlankTitleAccepted`).
- The inner `catch` at `lib/gemini.ts:113-117` also catches the three
  specific validation errors. A caller only ever sees
  "Failed to parse AI response as valid JSON" (`Gemini.ParseNoteFailures`).
- Only `GeminiError`s can reach the outer `catch` at
  `lib/gemini.ts:118-124`. Its fallback message "Failed to generate note.
  Please try again." is therefore never produced, and `Gemini.GenerateErrors`
  lists every message that can be.

## Model

| member | source | states |
|---|---|---|
| Gemini.GenerateWithGemini | lib/gemini.ts:18-35 | With no key configured it fails with the key message and sends nothing. With a key it sends the prompt exactly once. It succeeds exactly when the provider completes, and then returns the provider's text unchanged. |
| Gemini.InvokerErrors | lib/gemini.ts:28-34 | Every invoker failure carries one of its three messages. A thrown `Error`'s message survives verbatim after "AI Generation failed: ". Anything else thrown gives "An unexpected error occurred during AI generation". |
| Gemini.ChatBlankQuery | lib/gemini.ts:38-40 | A query of white space only fails with "Query cannot be empty" whatever the notes are, and nothing is sent. |
| Gemini.ChatNoNotes | lib/gemini.ts:42-44 | A real query with an empty note list fails with "No notes available for context", and nothing is sent. |
| Gemini.ChatWithoutKey | lib/gemini.ts:18-21 | A real query over some notes but with no key fails with the key message, and nothing is sent. |
| Gemini.ChatPassesThrough | lib/gemini.ts:37-60 | Past both guards, exactly one request carries the chat prompt. The answer is the provider's text exactly when it completes. Any failure is an invoker failure. |
| Gemini.NoteBlocksAt | lib/gemini.ts:46-47 | Block i of the context renders note i, in list order. |
| Gemini.NoteBlockProgress | lib/gemini.ts:47 | A rendered note ends with "Progress: " + digits + "%". The digits read back as the note's progress. |
| Gemini.NotesContextBlockAt | lib/gemini.ts:46-48 | Each block appears verbatim at the offset of the earlier blocks plus one separator each. |
| Gemini.NotesContextSeparatorAt | lib/gemini.ts:48 | Exactly one "\n\n" stands between each block and the next. |
| Gemini.NotesContextEnd | lib/gemini.ts:46-48 | The last block ends the context, so nothing follows it. |
| Gemini.NotesContextLength | lib/gemini.ts:46-48 | n notes give a context as long as the n blocks plus n - 1 separators. |
| Gemini.ChatPromptLayout | lib/gemini.ts:50-57 | The prompt has the template's head, then the context, then the query verbatim just before the template's tail. |
| Gemini.ChatPromptInjective | lib/gemini.ts:50-57 | Different queries over the same notes give different prompts. |
| Gemini.GenerationPromptCarriesTopic | lib/gemini.ts:67-81 | The generation prompt holds the topic, untrimmed, between the template's head and tail. |
| Gemini.FirstIndexOf | lib/gemini.ts:89 | Returns the first position of the character, or reports that it does not occur. |
| Gemini.LastIndexOf | lib/gemini.ts:89 | Returns the last position of the character, or reports that it does not occur. |
| Gemini.ExtractJson | lib/gemini.ts:87-92 | When `/\{[\s\S]*\}/` matches, the result is the leftmost-longest span starting with `{` and ending with `}`: every other such span lies inside it. When it does not match, the text passes unchanged. |
| Gemini.ExtractBraces | lib/gemini.ts:89-92 | A match starts with `{` and ends with `}`, no `{` comes before it, and no `}` comes after it. |
| Gemini.WidestIsOutermost | lib/gemini.ts:89 | Outside the widest span no character could start or end another span. |
| Gemini.ExtractSurrounded | lib/gemini.ts:87-92 | Prose with no `{` before a braced object and no `}` after it is cut away exactly. |
| Gemini.ExtractIdempotent | lib/gemini.ts:89-92 | Extracting from an extracted span changes nothing. |
| Gemini.ValidationOrder | lib/gemini.ts:95-106 | The checks run on null, title, content, then progress. Each rejection means every earlier check passed and this one failed. Acceptance means all passed, and the candidate holds the fields as parsed. `null` is rejected by a property read. |
| Gemini.Round | lib/gemini.ts:111 | `Math.round` gives the integer r with r - 0.5 <= x < r + 0.5, so halves round up. |
| Gemini.RoundPercentage | lib/gemini.ts:104-111 | A progress that passed the range check rounds into 0..100. |
| Gemini.ParseNoteFailures | lib/gemini.ts:94-117 | The inner `try` fails exactly when parsing or a check fails. It then always carries the single parse message. |
| Gemini.ParseNoteSuccess | lib/gemini.ts:108-112 | A note from the inner `try` is the normalised candidate: title and content are their own trims, and progress is in 0..100. |
| Gemini.ValidationMessageReplaced | lib/gemini.ts:98-116 | When a check throws its own message, the caller gets the parse message instead, and that message differs from the check's. |
| Gemini.OutOfRangeProgressRejected | lib/gemini.ts:104-106 | A progress below 0 or above 100 is rejected, never clamped. |
| Gemini.BlankTitleAccepted | lib/gemini.ts:98-110 | A title of white space only passes the check and comes out as "". |
| Gemini.GenerateBlankTopic | lib/gemini.ts:63-65 | A topic of white space only fails with "Topic cannot be empty", and nothing is sent. |
| Gemini.GenerateWithoutKey | lib/gemini.ts:18-21 | A real topic with no key fails with the key message, and nothing is sent. |
| Gemini.GenerateSendsOnce | lib/gemini.ts:83-95 | With a real topic and a key, the generation prompt is sent exactly once. A provider failure is rethrown unchanged. A provider answer goes through the inner `try` on the brace span of its trim. |
| Gemini.GenerateErrors | lib/gemini.ts:62-124 | Every failure of `generateNote` has the topic message, an invoker message or the parse message. |
| Gemini.GenerateSuccess | lib/gemini.ts:108-112 | Every generated note has a trimmed title and content and a progress in 0..100. |
| Text.TrimStart | lib/gemini.ts:87 | Removes leading white space: the result is a suffix of the input and does not start with white space. |
| Text.TrimEnd | lib/gemini.ts:87 | Removes trailing white space: the result is a prefix of the input and does not end with white space. |
| Text.TrimStartDropsSpace | lib/gemini.ts:87 | What the leading trim removes is white space only. |
| Text.TrimEndDropsSpace | lib/gemini.ts:87 | What the trailing trim removes is white space only. |
| Text.Trim | lib/gemini.ts:87 | `trim` never lengthens the string, and the result has no white space at either end. |
| Text.TrimSplit | lib/gemini.ts:87 | The input is its trim with white space on both sides. |
| Text.TrimUnique | lib/gemini.ts:109-110 | Any split of a string into white space, a tight middle and white space has the trim as that middle. |
| Text.TrimIdempotent | lib/gemini.ts:109-110 | Trimming twice is trimming once. |
| Text.BlankIffAllSpace | lib/gemini.ts:38 | `!s.trim()` holds exactly when every character of s is white space. |
| Text.JoinLength | lib/gemini.ts:48 | `join` produces the parts plus n - 1 separators. |
| Text.JoinPartAt | lib/gemini.ts:48 | Part i appears verbatim at its offset. |
| Text.JoinSepAt | lib/gemini.ts:48 | One separator follows each part but the last. |
| Text.NatToDecimal | lib/gemini.ts:47 | The rendering of a natural number is digits only, with no leading zero. |
| Text.NatToDecimalRoundTrip | lib/gemini.ts:47 | Reading the digits back gives the number. |
| Text.IntToDecimalRoundTrip | lib/gemini.ts:47 | Reading back a rendered integer, sign included, gives the integer. |
| Page.WithoutId | app/page.tsx:43-45 | A note survives filtering exactly when it was in the list and has a different id. The list never grows. |
| Page.WithoutIdConcat | app/page.tsx:44 | Filtering distributes over concatenation, so survivors keep their order. |
| Page.WithoutIdLength | app/page.tsx:44 | Deleting shortens the list by exactly the number of notes with that id. |
| Page.WithoutUnknownId | app/page.tsx:44 | Deleting an id no note has leaves the list as it was. |
| Page.WithoutIdIdempotent | app/page.tsx:44 | Deleting twice is deleting once. |
| Page.WithProgress | app/page.tsx:47-53 | The length is kept. Every note keeps its id, title and content. Progress becomes the new value exactly on the notes with the id. |
| Page.UpdateUnknownId | app/page.tsx:49-51 | Updating an id no note has leaves the list as it was. |
| Page.DeleteAfterUpdate | app/page.tsx:43-53 | Updating then deleting the same id is just deleting it. |
| Page.RangeKept | app/page.tsx:36-53 | If every progress is in 0..100 before, it still is after deleting, after setting an in-range value, and after appending an in-range note. |
| Page.CanAddIffTrimmed | app/page.tsx:29 | The add guard holds exactly when neither field trims to "". |
| Page.Home.constructor | app/page.tsx:23-26 | The page starts with no notes and an empty form with progress 0. |
| Page.Home.AddNote | app/page.tsx:28-41 | If both fields have non-white-space text, one note is appended carrying the fields as typed (untrimmed) and the chosen progress, and the form resets to "", "", 0. Otherwise nothing changes. |
| Page.Home.DeleteNote | app/page.tsx:43-45 | The list becomes `WithoutId` of the old list, and the form is untouched. |
| Page.Home.UpdateProgress | app/page.tsx:47-53 | The list becomes `WithProgress` of the old list, and the form is untouched. |
| Page.Home.AddGeneratedNote | app/page.tsx:105 | The generated note is appended at the end, and the form is untouched. |
| Scenarios.CatsExtracted | lib/gemini.ts:87-92 | In "Sure! {…} Hope that helps." the parser is handed exactly the object. |
| Scenarios.CatsNote | lib/gemini.ts:87-112 | When that object parses as usual, the note is "Cats", "Cats are mammals.", 42. |
| Scenarios.ProgressTooLarge | lib/gemini.ts:104-106 | A progress of 150 gives the single parse message. |
| Scenarios.NotJson | lib/gemini.ts:94-117 | Text that does not parse gives the single parse message. |
| Scenarios.ChatStub | lib/gemini.ts:37-60 | A one-note chat with a stub provider returns the stub's text after one request. |
| Scenarios.PageSession | app/page.tsx:28-53 | Filling in the form and adding gives one note with the typed fields. A second add right after changes nothing, because the form was reset. Updating then deleting that note empties the list. |

## Left out

- The Gemini SDK (`lib/gemini.ts:3`, `24-27`): the client, the model name,
  and awaiting the response are outside the model. What a request yields is
  the `provider` parameter.
- `JSON.parse`: its grammar is not modelled. It is the `parse` parameter,
  and `JsonValue` is what it can return.
- JSON numbers are exact reals. IEEE doubles are not modelled, so the model
  does not capture rounding of long literals, `-0`, or literals that
  overflow to `Infinity`. The source rejects an `Infinity` progress at the
  range check, just as the model rejects any value above 100.
  `Gemini.Round` is `Math.round` on exact values.
- `Text.IntToDecimal` renders integers only. The progress values the page
  holds are integers, from the slider and from `Math.round`. JavaScript's
  exponent form for magnitudes of 1e21 and above is not modelled.
- JavaScript strings are sequences of UTF-16 code units. A Dafny `string`
  holds Unicode scalar values, so the model cannot represent lone
  surrogates that `JSON.parse` or the provider might produce. Lengths and
  offsets, as in `Gemini.NotesContextLength` and `Text.JoinPartAt`, count
  scalar values, not code units. No result of the core depends on this.
- `console.log` and `console.error` (`lib/gemini.ts:29`, `85`, `114-115`,
  `122`) have no effect on results.
- The outer fallback "Failed to generate note. Please try again."
  (`lib/gemini.ts:122-123`): it is unreachable, because only `GeminiError`s
  reach that `catch`. `Gemini.GenerateErrors` shows that it is never
  produced.
- The specific validation messages (`Gemini.TitleInvalid`,
  `Gemini.ContentInvalid`, `Gemini.ProgressInvalid`) never reach a caller.
  The inner `catch` replaces them (`Gemini.ValidationMessageReplaced`).
- Note ids (`Date.now().toString()`, `app/page.tsx:31`) are a parameter of
  `Page.Home.AddNote`. Whether they are unique is not modelled.
- The JSX, the dialog, and the `onChange` setters of the form fields
  (`app/page.tsx:55-160`) are outside the model. These setters are plain
  field assignments on `Page.Home`.
- React's asynchronous state updates and stale closures are not modelled.
  Each method acts on the current state at once.
- `lib/types.ts` is not part of this model. `Types.Note` follows its use in
  `app/page.tsx`.
- `components/ai-chat.tsx` and `components/note-generator.tsx` are not part
  of this model. They call the AI layer and hand notes to the page.
