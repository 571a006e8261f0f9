/** The AI layer of lib/gemini.ts: the key guard in front of the provider,
    the chat prompt built from the notes, and note generation with its
    brace-span extraction, field validation and normalisation.

    Every thrown `GeminiError` becomes an `Err`; the external model is a
    function parameter, and each reply records the prompts that were handed
    to it, so "no provider call" reads `sent == []`. */
module Gemini {
  import opened Wrappers
  import opened Text
  import opened Types

  /** The one error class of the layer; only its message distinguishes cases. */
  datatype GeminiError = GeminiError(message: string)

  const KeyMissing := "Gemini API key is not configured"
  const GenerationFailedPrefix := "AI Generation failed: "
  const UnexpectedFailure := "An unexpected error occurred during AI generation"
  const QueryEmpty := "Query cannot be empty"
  const NoNotes := "No notes available for context"
  const TopicEmpty := "Topic cannot be empty"
  const TitleInvalid := "Invalid or missing title in AI response"
  const ContentInvalid := "Invalid or missing content in AI response"
  const ProgressInvalid := "Invalid progress value in AI response"
  const ParseFailed := "Failed to parse AI response as valid JSON"

  /** What one request to the external model does: it yields the completion
      text, or throws an `Error` with a message, or throws something else. */
  datatype ProviderOutcome = Completed(text: string) | Threw(message: string) | ThrewNonError

  /** A result together with the prompts sent to the provider on the way. */
  datatype Reply<T> = Reply(result: Result<T, GeminiError>, sent: seq<string>)

  /** `process.env.NEXT_PUBLIC_GEMINI_API_KEY` is truthy: set and not "". */
  predicate KeyConfigured(key: Option<string>) {
    key.Some? && key.value != ""
  }

  /* ---------------------------------------------------------------------- */
  /* generateWithGemini                                                     */

  /** Refuses before any request when the key is missing; otherwise sends the
      prompt once and passes the text through or wraps the failure. */
  function GenerateWithGemini(key: Option<string>, provider: string -> ProviderOutcome, prompt: string): (r: Reply<string>)
    ensures !KeyConfigured(key) ==> r == Reply(Err(GeminiError(KeyMissing)), [])
    ensures KeyConfigured(key) ==> r.sent == [prompt]
    ensures r.result.Ok? <==> KeyConfigured(key) && provider(prompt).Completed?
    ensures r.result.Ok? ==> r.result.value == provider(prompt).text
  {
    if !KeyConfigured(key) then Reply(Err(GeminiError(KeyMissing)), [])
    else
      match provider(prompt)
      case Completed(text) => Reply(Ok(text), [prompt])
      case Threw(msg) => Reply(Err(GeminiError(GenerationFailedPrefix + msg)), [prompt])
      case ThrewNonError => Reply(Err(GeminiError(UnexpectedFailure)), [prompt])
  }

  /** The messages a provider round trip can fail with. */
  predicate IsInvokerMessage(m: string) {
    m == KeyMissing || m == UnexpectedFailure ||
    (|GenerationFailedPrefix| <= |m| && m[..|GenerationFailedPrefix|] == GenerationFailedPrefix)
  }

  /** Every failure of the invoker is one of its own three messages, and the
      cause's message survives verbatim after the prefix. */
  lemma InvokerErrors(key: Option<string>, provider: string -> ProviderOutcome, prompt: string)
    ensures var r := GenerateWithGemini(key, provider, prompt);
      r.result.Err? ==> IsInvokerMessage(r.result.error.message)
    ensures KeyConfigured(key) && provider(prompt).Threw? ==>
      GenerateWithGemini(key, provider, prompt).result ==
        Err(GeminiError(GenerationFailedPrefix + provider(prompt).message))
    ensures KeyConfigured(key) && provider(prompt).ThrewNonError? ==>
      GenerateWithGemini(key, provider, prompt).result == Err(GeminiError(UnexpectedFailure))
  {
  }

  /* ---------------------------------------------------------------------- */
  /* chatWithNotes                                                          */

  /** One note rendered for the context. */
  function NoteBlock(n: Note): string {
    "Title: " + n.title + "\nContent: " + n.content + "\nProgress: " + IntToDecimal(n.progress) + "%"
  }

  const BlockSeparator := "\n\n"

  /** The rendered notes, in list order. */
  function NoteBlocks(notes: seq<Note>): (r: seq<string>)
    ensures |r| == |notes|
  {
    if |notes| == 0 then [] else [NoteBlock(notes[0])] + NoteBlocks(notes[1..])
  }

  /** Block `i` renders note `i`. */
  lemma {:induction false} NoteBlocksAt(notes: seq<Note>, i: nat)
    requires i < |notes|
    ensures NoteBlocks(notes)[i] == NoteBlock(notes[i])
  {
    if i > 0 {
      NoteBlocksAt(notes[1..], i - 1);
    }
  }

  /** `notes.map(...).join("\n\n")`. */
  function NotesContext(notes: seq<Note>): string {
    Join(NoteBlocks(notes), BlockSeparator)
  }

  const ChatHead := "\n    Context - These are my notes:\n    "
  const ChatMiddle := "\n\n    User Query: "
  const ChatTail := "\n\n    Please provide a helpful response based on the notes and query above.\n  "

  /** The chat prompt template with the context and the query filled in. */
  function ChatPrompt(notes: seq<Note>, query: string): string {
    ChatHead + NotesContext(notes) + ChatMiddle + query + ChatTail
  }

  /** Guards on the query, then on the notes, then asks the provider. */
  function ChatWithNotes(key: Option<string>, provider: string -> ProviderOutcome, notes: seq<Note>, query: string): Reply<string>
  {
    if IsBlank(query) then Reply(Err(GeminiError(QueryEmpty)), [])
    else if |notes| == 0 then Reply(Err(GeminiError(NoNotes)), [])
    else GenerateWithGemini(key, provider, ChatPrompt(notes, query))
  }

  /** A blank query fails first, whatever the notes, with no request. */
  lemma ChatBlankQuery(key: Option<string>, provider: string -> ProviderOutcome, notes: seq<Note>, query: string)
    requires AllSpace(query)
    ensures ChatWithNotes(key, provider, notes, query) == Reply(Err(GeminiError(QueryEmpty)), [])
  {
    BlankIffAllSpace(query);
  }

  /** A real query with no notes fails with the notes message, with no request. */
  lemma ChatNoNotes(key: Option<string>, provider: string -> ProviderOutcome, query: string)
    requires !AllSpace(query)
    ensures ChatWithNotes(key, provider, [], query) == Reply(Err(GeminiError(NoNotes)), [])
  {
    BlankIffAllSpace(query);
  }

  /** A real query over some notes but with no key fails with the key
      message, with no request. */
  lemma ChatWithoutKey(key: Option<string>, provider: string -> ProviderOutcome, notes: seq<Note>, query: string)
    requires !AllSpace(query) && |notes| > 0 && !KeyConfigured(key)
    ensures ChatWithNotes(key, provider, notes, query) == Reply(Err(GeminiError(KeyMissing)), [])
  {
    BlankIffAllSpace(query);
  }

  /** Past the guards the prompt is sent exactly once and the provider's text
      is the answer, unmodified; its failures are the invoker's. */
  lemma ChatPassesThrough(key: Option<string>, provider: string -> ProviderOutcome, notes: seq<Note>, query: string)
    requires !AllSpace(query) && |notes| > 0 && KeyConfigured(key)
    ensures var r := ChatWithNotes(key, provider, notes, query);
      && r.sent == [ChatPrompt(notes, query)]
      && (forall t :: r.result == Ok(t) <==> provider(ChatPrompt(notes, query)) == Completed(t))
      && (r.result.Err? ==> IsInvokerMessage(r.result.error.message))
  {
    BlankIffAllSpace(query);
    InvokerErrors(key, provider, ChatPrompt(notes, query));
  }

  /** Block `i` of the context (note `i` rendered, by `NoteBlocksAt`) stands
      at the offset of the earlier blocks plus one separator each. */
  lemma NotesContextBlockAt(notes: seq<Note>, i: nat)
    requires i < |notes|
    ensures var b := NoteBlocks(notes);
      var c, o := Join(b, BlockSeparator), Offset(b, BlockSeparator, i);
      o + |b[i]| <= |c| && c[o..o + |b[i]|] == b[i]
  {
    JoinPartAt(NoteBlocks(notes), BlockSeparator, i);
  }

  /** The last block ends the context. */
  lemma NotesContextEnd(notes: seq<Note>)
    requires |notes| > 0
    ensures var b := NoteBlocks(notes);
      Offset(b, BlockSeparator, |b| - 1) + |b[|b| - 1]| == |Join(b, BlockSeparator)|
  {
    JoinEnd(NoteBlocks(notes), BlockSeparator);
  }

  /** Exactly one separator follows every block but the last, and the next
      block starts right after it. */
  lemma NotesContextSeparatorAt(notes: seq<Note>, i: nat)
    requires i + 1 < |notes|
    ensures var b := NoteBlocks(notes);
      var c, e := Join(b, BlockSeparator), Offset(b, BlockSeparator, i) + |b[i]|;
      && e + |BlockSeparator| == Offset(b, BlockSeparator, i + 1) <= |c|
      && c[e..e + |BlockSeparator|] == BlockSeparator
  {
    var b := NoteBlocks(notes);
    JoinSepAt(b, BlockSeparator, i);
    OffsetStep(b, BlockSeparator, i);
  }

  /** n notes give a context of the n blocks plus exactly n - 1 separators. */
  lemma NotesContextLength(notes: seq<Note>)
    requires |notes| > 0
    ensures |NotesContext(notes)| == TotalLength(NoteBlocks(notes)) + (|notes| - 1) * |BlockSeparator|
  {
    JoinLength(NoteBlocks(notes), BlockSeparator);
  }

  /** Each block ends in "Progress: <n>%", and the digits read back as the
      note's progress. */
  lemma NoteBlockProgress(n: Note)
    ensures var b, d := NoteBlock(n), IntToDecimal(n.progress);
      && |d| + 11 <= |b|
      && b[|b| - |d| - 11..] == "Progress: " + d + "%"
      && (d[0] == '-' ==> AllDigits(d[1..])) && (d[0] != '-' ==> AllDigits(d))
      && SignedDecimalValue(d) == n.progress
  {
    var d := IntToDecimal(n.progress);
    var b := NoteBlock(n);
    assert b == ("Title: " + n.title + "\nContent: " + n.content + "\n") + ("Progress: " + d + "%");
    IntToDecimalRoundTrip(n.progress);
  }

  /** The prompt carries the context right after its head and the query
      verbatim just before its tail, context first. */
  lemma ChatPromptLayout(notes: seq<Note>, query: string)
    ensures var p, c := ChatPrompt(notes, query), NotesContext(notes);
      && |ChatHead| + |c| + |ChatMiddle| + |query| + |ChatTail| == |p|
      && p[|ChatHead|..|ChatHead| + |c|] == c
      && p[|p| - |ChatTail| - |query|..|p| - |ChatTail|] == query
      && |ChatHead| + |c| <= |p| - |ChatTail| - |query|
  {
    ConcatSlices(ChatHead, NotesContext(notes), ChatMiddle, query, ChatTail);
  }

  /** Different queries over the same notes give different prompts. */
  lemma ChatPromptInjective(notes: seq<Note>, q1: string, q2: string)
    requires ChatPrompt(notes, q1) == ChatPrompt(notes, q2)
    ensures q1 == q2
  {
    ChatPromptLayout(notes, q1);
    ChatPromptLayout(notes, q2);
  }

  /* ---------------------------------------------------------------------- */
  /* generateNote: prompt and extraction                                    */

  const GenerationHead := "\n    Generate a detailed note about \""
  const GenerationTail :=
    "\".\n    \n    Respond with ONLY a JSON object in this EXACT format (no other text):\n"
    + "    {\n      \"title\": \"Brief, clear title\",\n"
    + "      \"content\": \"Detailed, well-structured content\",\n"
    + "      \"progress\": 50\n    }\n\n    Requirements:\n"
    + "    - Title: Clear and concise\n"
    + "    - Content: Informative but concise, well-structured\n"
    + "    - Progress: Number between 0-100 indicating completeness\n  "

  /** The generation template with the topic, untrimmed, in quotes. */
  function GenerationPrompt(topic: string): string {
    GenerationHead + topic + GenerationTail
  }

  /** The topic can be read back from the prompt. */
  lemma GenerationPromptCarriesTopic(topic: string)
    ensures var p := GenerationPrompt(topic);
      |p| == |GenerationHead| + |topic| + |GenerationTail| &&
      p[|GenerationHead|..|p| - |GenerationTail|] == topic
  {
    MiddleOf(GenerationHead, topic, GenerationTail);
  }

  /** Position of the first `c` in `s`, if any. */
  function FirstIndexOf(s: string, c: char): (r: Option<nat>)
    ensures r.Some? ==> r.value < |s| && s[r.value] == c && forall k :: 0 <= k < r.value ==> s[k] != c
    ensures r.None? ==> forall k :: 0 <= k < |s| ==> s[k] != c
  {
    if |s| == 0 then None
    else if s[0] == c then Some(0)
    else match FirstIndexOf(s[1..], c)
      case None => None
      case Some(k) => Some(k + 1)
  }

  /** Position of the last `c` in `s`, if any. */
  function LastIndexOf(s: string, c: char): (r: Option<nat>)
    ensures r.Some? ==> r.value < |s| && s[r.value] == c && forall k :: r.value < k < |s| ==> s[k] != c
    ensures r.None? ==> forall k :: 0 <= k < |s| ==> s[k] != c
  {
    if |s| == 0 then None
    else if s[|s| - 1] == c then Some(|s| - 1)
    else LastIndexOf(s[..|s| - 1], c)
  }

  /** The pattern `/\{[\s\S]*\}/` matches exactly `s[i..j]`: it starts with
      `{`, ends with `}` and anything may stand between. */
  ghost predicate BraceSpan(s: string, i: int, j: int) {
    0 <= i < j <= |s| && s[i] == '{' && s[j - 1] == '}'
  }

  ghost predicate HasBraceSpan(s: string) {
    exists i, j :: BraceSpan(s, i, j)
  }

  /** The span `(lo, hi)` is where a leftmost, greedy search stops: every
      other match starts no earlier and ends no later. */
  ghost predicate Widest(s: string, lo: int, hi: int) {
    forall i, j :: BraceSpan(s, i, j) ==> lo <= i && j <= hi
  }

  /** `jsonStr` after the match: the leftmost longest brace span of `s`, or
      `s` itself when the pattern does not match. */
  function ExtractJson(s: string): (r: string)
    ensures HasBraceSpan(s) ==>
      exists lo, hi :: BraceSpan(s, lo, hi) && Widest(s, lo, hi) && r == s[lo..hi]
    ensures !HasBraceSpan(s) ==> r == s
  {
    var f, l := FirstIndexOf(s, '{'), LastIndexOf(s, '}');
    if f.Some? && l.Some? && f.value < l.value then
      assert BraceSpan(s, f.value, l.value + 1);
      assert Widest(s, f.value, l.value + 1);
      s[f.value..l.value + 1]
    else
      assert !HasBraceSpan(s);
      s
  }

  /** When the pattern matches, the extracted text starts with `{`, ends with
      `}`, lies inside `s`, and no `{` precedes it and no `}` follows it. */
  lemma ExtractBraces(s: string)
    requires HasBraceSpan(s)
    ensures var r := ExtractJson(s);
      exists lo, hi :: BraceSpan(s, lo, hi) && r == s[lo..hi] &&
        (forall k :: 0 <= k < lo ==> s[k] != '{') &&
        (forall k :: hi <= k < |s| ==> s[k] != '}')
    ensures var r := ExtractJson(s); |r| >= 2 && r[0] == '{' && r[|r| - 1] == '}'
  {
    var r := ExtractJson(s);
    var lo, hi :| BraceSpan(s, lo, hi) && Widest(s, lo, hi) && r == s[lo..hi];
    WidestIsOutermost(s, lo, hi);
    assert |r| == hi - lo && r[0] == s[lo] && r[|r| - 1] == s[hi - 1];
  }

  /** Nothing outside the widest span could start or end another one. */
  lemma WidestIsOutermost(s: string, lo: int, hi: int)
    requires BraceSpan(s, lo, hi) && Widest(s, lo, hi)
    ensures forall k :: 0 <= k < lo ==> s[k] != '{'
    ensures forall k :: hi <= k < |s| ==> s[k] != '}'
  {
    forall k | 0 <= k < lo ensures s[k] != '{' {
      assert BraceSpan(s, k, hi) ==> lo <= k;
    }
    forall k | hi <= k < |s| ensures s[k] != '}' {
      assert BraceSpan(s, lo, k + 1) ==> k + 1 <= hi;
    }
  }

  /** Prose with no `{` before the object and no `}` after it is cut away:
      the extraction is exactly the object. */
  lemma ExtractSurrounded(pre: string, obj: string, post: string)
    requires |obj| >= 2 && obj[0] == '{' && obj[|obj| - 1] == '}'
    requires '{' !in pre && '}' !in post
    ensures ExtractJson(pre + obj + post) == obj
  {
    var s := pre + obj + post;
    var lo, hi := |pre|, |pre| + |obj|;
    assert s[lo..hi] == obj;
    assert BraceSpan(s, lo, hi);
    assert forall k :: 0 <= k < lo ==> s[k] == pre[k];
    assert forall k :: hi <= k < |s| ==> s[k] == post[k - hi];
    assert Widest(s, lo, hi);
    var lo', hi' :| BraceSpan(s, lo', hi') && Widest(s, lo', hi') && ExtractJson(s) == s[lo'..hi'];
    assert lo <= lo' && hi' <= hi;
  }

  /** Extracting from an extracted span changes nothing. */
  lemma ExtractIdempotent(s: string)
    ensures ExtractJson(ExtractJson(s)) == ExtractJson(s)
  {
    if HasBraceSpan(s) {
      var r := ExtractJson(s);
      ExtractBraces(s);
      assert FirstIndexOf(r, '{') == Some(0);
      assert LastIndexOf(r, '}') == Some(|r| - 1);
      assert r[0..|r| - 1 + 1] == r;
    }
  }

  /* ---------------------------------------------------------------------- */
  /* generateNote: validation and normalisation                             */

  /** A value `JSON.parse` can produce. */
  datatype JsonValue =
    | JNull
    | JBool(b: bool)
    | JNumber(x: real)
    | JString(s: string)
    | JArray(items: seq<JsonValue>)
    | JObject(fields: map<string, JsonValue>)

  /** Reading a property of a non-null value: a field value or `undefined`. */
  datatype Property = Undefined | Defined(value: JsonValue)

  /** `v[key]` for a non-null `v`; only objects have the three keys. */
  function Get(v: JsonValue, key: string): Property
    requires !v.JNull?
  {
    if v.JObject? && key in v.fields then Defined(v.fields[key]) else Undefined
  }

  /** `!p || typeof p !== 'string'` is false: a string other than "". */
  predicate NonEmptyString(p: Property) {
    p.Defined? && p.value.JString? && p.value.s != ""
  }

  /** `typeof p !== 'number' || p < 0 || p > 100` is false. */
  predicate Percentage(p: Property) {
    p.Defined? && p.value.JNumber? && 0.0 <= p.value.x <= 100.0
  }

  /** What the validation can throw: a TypeError for reading a property of
      `null`, or one of the three `GeminiError`s. */
  datatype Rejection = NullValue | BadTitle | BadContent | BadProgress

  /** The fields as read from the parsed value, before normalisation. */
  datatype Candidate = Candidate(title: string, content: string, progress: real)

  /** The three checks, title first, then content, then progress. */
  function Validate(v: JsonValue): Result<Candidate, Rejection> {
    if v.JNull? then Err(NullValue)
    else if !NonEmptyString(Get(v, "title")) then Err(BadTitle)
    else if !NonEmptyString(Get(v, "content")) then Err(BadContent)
    else if !Percentage(Get(v, "progress")) then Err(BadProgress)
    else Ok(Candidate(Get(v, "title").value.s, Get(v, "content").value.s, Get(v, "progress").value.x))
  }

  /** The message each `GeminiError` thrown by a check carries. */
  function RejectionMessage(e: Rejection): string
    requires !e.NullValue?
  {
    match e
    case BadTitle => TitleInvalid
    case BadContent => ContentInvalid
    case BadProgress => ProgressInvalid
  }

  /** The checks reject in a fixed order: each rejection means every earlier
      check passed and this one failed; acceptance means all passed, and the
      candidate holds the fields as they were. */
  lemma ValidationOrder(v: JsonValue)
    ensures Validate(v) == Err(NullValue) <==> v.JNull?
    ensures Validate(v) == Err(BadTitle) <==> !v.JNull? && !NonEmptyString(Get(v, "title"))
    ensures Validate(v) == Err(BadContent) <==>
      !v.JNull? && NonEmptyString(Get(v, "title")) && !NonEmptyString(Get(v, "content"))
    ensures Validate(v) == Err(BadProgress) <==>
      !v.JNull? && NonEmptyString(Get(v, "title")) && NonEmptyString(Get(v, "content")) &&
      !Percentage(Get(v, "progress"))
    ensures Validate(v).Ok? <==>
      !v.JNull? && NonEmptyString(Get(v, "title")) && NonEmptyString(Get(v, "content")) &&
      Percentage(Get(v, "progress"))
    ensures Validate(v).Ok? ==>
      && Get(v, "title") == Defined(JString(Validate(v).value.title))
      && Get(v, "content") == Defined(JString(Validate(v).value.content))
      && Get(v, "progress") == Defined(JNumber(Validate(v).value.progress))
      && Validate(v).value.title != "" && Validate(v).value.content != ""
      && 0.0 <= Validate(v).value.progress <= 100.0
  {
  }

  /** `Math.round`: the nearest integer, halves rounded up. */
  function Round(x: real): (r: int)
    ensures r as real - 0.5 <= x < r as real + 0.5
  {
    (x + 0.5).Floor
  }

  /** Rounding a value of [0, 100] stays in [0, 100]. */
  lemma RoundPercentage(x: real)
    requires 0.0 <= x <= 100.0
    ensures 0 <= Round(x) <= 100
  {
  }

  /** Trim the two strings and round the progress. */
  function Normalise(c: Candidate): GeneratedNote {
    GeneratedNote(Trim(c.title), Trim(c.content), Round(c.progress))
  }

  /** The inner `try`: parse, validate, normalise; anything it throws becomes
      the one parse message. */
  function ParseNote(parse: string -> Option<JsonValue>, jsonStr: string): Result<GeneratedNote, GeminiError> {
    match parse(jsonStr)
    case None => Err(GeminiError(ParseFailed))
    case Some(v) =>
      match Validate(v)
      case Err(_) => Err(GeminiError(ParseFailed))
      case Ok(c) => Ok(Normalise(c))
  }

  /** The text `parse` is given when the provider answers `text`. */
  function ParsedText(text: string): string {
    ExtractJson(Trim(text))
  }

  /** What follows the provider request: its errors are rethrown unchanged,
      its text goes through the inner `try`. */
  function AfterRequest(call: Reply<string>, parse: string -> Option<JsonValue>): Reply<GeneratedNote> {
    match call.result
    case Err(e) => Reply(Err(e), call.sent)
    case Ok(text) => Reply(ParseNote(parse, ParsedText(text)), call.sent)
  }

  /** `generateNote`: the topic guard, one provider request, and then the
      trimmed text's brace span parsed into a note. */
  function GenerateNote(key: Option<string>, provider: string -> ProviderOutcome,
                        parse: string -> Option<JsonValue>, topic: string): Reply<GeneratedNote>
  {
    if IsBlank(topic) then Reply(Err(GeminiError(TopicEmpty)), [])
    else AfterRequest(GenerateWithGemini(key, provider, GenerationPrompt(topic)), parse)
  }

  /** The inner `try` fails exactly when the parse or a check fails, and then
      always with the one parse message. */
  lemma ParseNoteFailures(parse: string -> Option<JsonValue>, s: string)
    ensures ParseNote(parse, s).Err? <==> parse(s).None? || Validate(parse(s).value).Err?
    ensures ParseNote(parse, s).Err? ==> ParseNote(parse, s).error == GeminiError(ParseFailed)
  {
  }

  /** A note out of the inner `try` is the normalised candidate: trimmed title
      and content, progress rounded into [0, 100]. */
  lemma ParseNoteSuccess(parse: string -> Option<JsonValue>, s: string)
    requires ParseNote(parse, s).Ok?
    ensures parse(s).Some? && Validate(parse(s).value).Ok?
    ensures var n, c := ParseNote(parse, s).value, Validate(parse(s).value).value;
      && n == Normalise(c)
      && Trim(n.title) == n.title && Trim(n.content) == n.content
      && 0 <= n.progress <= 100
  {
    var c := Validate(parse(s).value).value;
    ValidationOrder(parse(s).value);
    TrimIdempotent(c.title);
    TrimIdempotent(c.content);
    RoundPercentage(c.progress);
  }

  /** A check's own message never reaches the caller: the inner `catch`
      replaces it with the parse message, which differs from all three. */
  lemma ValidationMessageReplaced(parse: string -> Option<JsonValue>, s: string)
    requires parse(s).Some? && Validate(parse(s).value).Err?
    requires !Validate(parse(s).value).error.NullValue?
    ensures ParseNote(parse, s) == Err(GeminiError(ParseFailed))
    ensures RejectionMessage(Validate(parse(s).value).error) != ParseFailed
  {
    var m := RejectionMessage(Validate(parse(s).value).error);
    assert m[0] == 'I' && ParseFailed[0] == 'F';
  }

  /** A progress outside [0, 100] is rejected, never clamped. */
  lemma OutOfRangeProgressRejected(parse: string -> Option<JsonValue>, s: string, x: real)
    requires parse(s).Some? && !parse(s).value.JNull? && Get(parse(s).value, "progress") == Defined(JNumber(x))
    requires x < 0.0 || x > 100.0
    ensures ParseNote(parse, s) == Err(GeminiError(ParseFailed))
  {
    assert !Percentage(Get(parse(s).value, "progress"));
    assert Validate(parse(s).value).Err?;
    ParseNoteFailures(parse, s);
  }

  /** The title check runs before trimming: a title of white space only is
      accepted and comes out as "". */
  lemma BlankTitleAccepted(v: JsonValue, title: string)
    requires !v.JNull? && Get(v, "title") == Defined(JString(title)) && title != "" && AllSpace(title)
    requires NonEmptyString(Get(v, "content")) && Percentage(Get(v, "progress"))
    ensures Validate(v).Ok? && Normalise(Validate(v).value).title == ""
  {
    BlankIffAllSpace(title);
  }

  /** A blank topic fails at once, with no request. */
  lemma GenerateBlankTopic(key: Option<string>, provider: string -> ProviderOutcome,
                           parse: string -> Option<JsonValue>, topic: string)
    requires AllSpace(topic)
    ensures GenerateNote(key, provider, parse, topic) == Reply(Err(GeminiError(TopicEmpty)), [])
  {
    BlankIffAllSpace(topic);
  }

  /** With a real topic but no key, the key message comes back, with no request. */
  lemma GenerateWithoutKey(key: Option<string>, provider: string -> ProviderOutcome,
                           parse: string -> Option<JsonValue>, topic: string)
    requires !AllSpace(topic) && !KeyConfigured(key)
    ensures GenerateNote(key, provider, parse, topic) == Reply(Err(GeminiError(KeyMissing)), [])
  {
    BlankIffAllSpace(topic);
  }

  /** With a real topic and a key, the generation prompt is sent exactly once;
      a provider failure comes back as the invoker reported it, and a provider
      answer `t` goes through the inner `try` on the brace span of `t`. */
  lemma GenerateSendsOnce(key: Option<string>, provider: string -> ProviderOutcome,
                          parse: string -> Option<JsonValue>, topic: string)
    requires !AllSpace(topic) && KeyConfigured(key)
    ensures var r, p := GenerateNote(key, provider, parse, topic), GenerationPrompt(topic);
      && r.sent == [p]
      && (!provider(p).Completed? ==>
            r.result.Err? &&
            r.result.error == GenerateWithGemini(key, provider, p).result.error &&
            IsInvokerMessage(r.result.error.message))
      && (provider(p).Completed? ==> r.result == ParseNote(parse, ParsedText(provider(p).text)))
  {
    BlankIffAllSpace(topic);
    InvokerErrors(key, provider, GenerationPrompt(topic));
  }

  /** Every failure of `generateNote` carries one of the layer's messages:
      the topic guard's, the invoker's, or the single parse message. */
  lemma GenerateErrors(key: Option<string>, provider: string -> ProviderOutcome,
                       parse: string -> Option<JsonValue>, topic: string)
    ensures var r := GenerateNote(key, provider, parse, topic);
      r.result.Err? ==>
        r.result.error.message == TopicEmpty || IsInvokerMessage(r.result.error.message) ||
        r.result.error.message == ParseFailed
  {
    if !IsBlank(topic) {
      var call := GenerateWithGemini(key, provider, GenerationPrompt(topic));
      InvokerErrors(key, provider, GenerationPrompt(topic));
      if call.result.Ok? {
        ParseNoteFailures(parse, ParsedText(call.result.value));
      }
    }
  }

  /** Every note `generateNote` returns has a trimmed title and content and a
      progress in [0, 100]. */
  lemma GenerateSuccess(key: Option<string>, provider: string -> ProviderOutcome,
                        parse: string -> Option<JsonValue>, topic: string)
    requires GenerateNote(key, provider, parse, topic).result.Ok?
    ensures var n := GenerateNote(key, provider, parse, topic).result.value;
      Trim(n.title) == n.title && Trim(n.content) == n.content && 0 <= n.progress <= 100
  {
    var call := GenerateWithGemini(key, provider, GenerationPrompt(topic));
    ParseNoteSuccess(parse, ParsedText(call.result.value));
  }
}
