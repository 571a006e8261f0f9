/** The concrete responses the layer is expected to handle: prose around the
    JSON object, an out-of-range progress, and text with no JSON at all.
    `JSON.parse` stays a parameter; each lemma says what it returns. */
module Scenarios {
  import opened Wrappers
  import opened Text
  import opened Types
  import opened Gemini
  import opened Page

  const CatsFields := "\"title\":\"Cats\",\"content\":\"Cats are mammals.\",\"progress\":42"
  const CatsJson := "{" + CatsFields + "}"
  const CatsPreamble := "Sure! "
  const CatsClosing := " Hope that helps."
  const CatsResponse := CatsPreamble + CatsJson + CatsClosing

  /** A string with no white space at either end is its own trim. */
  lemma TightTrim(s: string)
    requires Tight(s)
    ensures Trim(s) == s
  {
    assert s == [] + s + [];
    TrimUnique(s, [], s, []);
  }

  /** The response has no white space at either end. */
  lemma CatsResponseTrimmed()
    ensures Trim(CatsResponse) == CatsResponse
  {
    TightTrim(CatsResponse);
  }

  /** The object starts with `{` and ends with `}`; the prose around it has
      no `{` before and no `}` after. */
  lemma CatsShape()
    ensures |CatsJson| >= 2 && CatsJson[0] == '{' && CatsJson[|CatsJson| - 1] == '}'
    ensures '{' !in CatsPreamble && '}' !in CatsClosing
  {
    var b := "{" + CatsFields + "}";
    assert b[|b| - 1] == "}"[0];
  }

  /** The prose around the object is cut away: `parse` sees exactly the object. */
  lemma CatsExtracted()
    ensures ParsedText(CatsResponse) == CatsJson
  {
    CatsResponseTrimmed();
    CatsShape();
    ExtractSurrounded(CatsPreamble, CatsJson, CatsClosing);
  }

  /** The object `JSON.parse` makes of the Cats text. */
  const CatsObject := JObject(map[
    "title" := JString("Cats"), "content" := JString("Cats are mammals."), "progress" := JNumber(42.0)])

  /** All three checks pass on that object. */
  lemma CatsValidates()
    ensures Validate(CatsObject) == Ok(Candidate("Cats", "Cats are mammals.", 42.0))
  {
    assert Get(CatsObject, "title") == Defined(JString("Cats"));
    assert Get(CatsObject, "content") == Defined(JString("Cats are mammals."));
    assert Get(CatsObject, "progress") == Defined(JNumber(42.0));
  }

  /** Normalising changes nothing here: the strings are already trimmed and
      42 is already whole. */
  lemma CatsNormalised()
    ensures Normalise(Candidate("Cats", "Cats are mammals.", 42.0)) == GeneratedNote("Cats", "Cats are mammals.", 42)
  {
    TightTrim("Cats");
    TightTrim("Cats are mammals.");
  }

  /** With `JSON.parse` reading the object as usual, the note is Cats, 42. */
  lemma CatsNote(parse: string -> Option<JsonValue>)
    requires parse(CatsJson) == Some(CatsObject)
    ensures ParseNote(parse, ParsedText(CatsResponse)) == Ok(GeneratedNote("Cats", "Cats are mammals.", 42))
  {
    CatsExtracted();
    CatsValidates();
    CatsNormalised();
    assert ParseNote(parse, CatsJson) == Ok(Normalise(Candidate("Cats", "Cats are mammals.", 42.0)));
  }

  /** A progress of 150 is rejected with the single parse message. */
  lemma ProgressTooLarge(parse: string -> Option<JsonValue>, s: string)
    requires parse(s) == Some(JObject(map[
      "title" := JString("X"), "content" := JString("Y"), "progress" := JNumber(150.0)]))
    ensures ParseNote(parse, s) == Err(GeminiError(ParseFailed))
  {
    OutOfRangeProgressRejected(parse, s, 150.0);
  }

  /** Text without braces reaches `parse` whole. */
  lemma NotJsonExtracted()
    ensures ParsedText("not json at all") == "not json at all"
  {
    var s := "not json at all";
    TightTrim(s);
    forall i, j | 0 <= i < j <= |s| ensures !BraceSpan(s, i, j) {
      assert s[i] != '{';
    }
  }

  /** When that text does not parse, the single parse message comes back. */
  lemma NotJson(parse: string -> Option<JsonValue>)
    requires parse("not json at all") == None
    ensures ParseNote(parse, ParsedText("not json at all")) == Err(GeminiError(ParseFailed))
  {
    NotJsonExtracted();
  }

  /** A stub provider answering a one-note chat: its text comes back as the
      reply, after a single request carrying the rendered prompt. */
  lemma ChatStub(key: Option<string>, provider: string -> ProviderOutcome, note: Note, answer: string)
    requires KeyConfigured(key)
    requires provider(ChatPrompt([note], "summarize")) == Completed(answer)
    ensures ChatWithNotes(key, provider, [note], "summarize") == Reply(Ok(answer), [ChatPrompt([note], "summarize")])
  {
    TightTrim("summarize");
  }

  /** A page session: typing into the form and adding works once and leaves
      the form empty, so a second add without typing changes nothing; a
      progress update then a delete of that note empties the list again. */
  method PageSession(title: string, content: string, p: int) returns (added: seq<Note>, final: seq<Note>)
    requires CanAdd(title, content)
    ensures added == [Note("1", title, content, p)]
    ensures final == []
  {
    var home := new Home();
    home.newTitle, home.newContent, home.newProgress := title, content, p;
    home.AddNote("1");
    home.AddNote("2");
    added := home.notes;
    home.UpdateProgress("1", 100);
    assert home.notes == [Note("1", title, content, 100)];
    home.DeleteNote("1");
    final := home.notes;
  }
}
