/** Prompt assembly and the empty-output error of `run_course_generator_sync`
    (agent/run_course_gen.py). The language model itself is a parameter. */
module Prompt {
  import opened Results
  import opened PyText
  import opened Schema

  /** The arguments of `run_course_generator_sync`. */
  datatype GenerationRequest = GenerationRequest(
    topic: string,
    difficulty: string,
    instructions: Option<string>,
    includeQuestions: bool,
    numExercises: Option<int>,
    includeFlashcards: bool,
    numFlashcards: Option<int>)

  /** A call that passes only the topic and keeps every keyword default. */
  function DefaultRequest(topic: string): GenerationRequest {
    GenerationRequest(topic, "beginner", None, true, None, false, None)
  }

  const Separator := "\n\n"

  function TopicLine(req: GenerationRequest): string {
    "Topic: " + Strip(req.topic)
  }

  function DifficultyLine(req: GenerationRequest): string {
    "Difficulty: " + Capitalize(Strip(req.difficulty))
  }

  /** The instructions are given and not blank. */
  predicate HasInstructions(req: GenerationRequest) {
    req.instructions.Some? && Strip(req.instructions.value) != ""
  }

  function InstructionsLine(req: GenerationRequest): string
    requires HasInstructions(req)
  {
    "Additional instructions: " + Strip(req.instructions.value)
  }

  /** `" (n)"` when a count is given. */
  function CountSuffix(n: Option<int>): string {
    match n
    case None => ""
    case Some(k) => " (" + IntToStr(k) + ")"
  }

  /** The content kinds asked for: questions first, then flashcards. */
  function ContentBits(req: GenerationRequest): (bits: seq<string>)
    ensures |bits| == (if req.includeQuestions then 1 else 0) + (if req.includeFlashcards then 1 else 0)
    ensures req.includeQuestions ==> bits[0] == "Questions" + CountSuffix(req.numExercises)
    ensures req.includeFlashcards ==> bits[|bits| - 1] == "Flashcards" + CountSuffix(req.numFlashcards)
  {
    (if req.includeQuestions then ["Questions" + CountSuffix(req.numExercises)] else [])
    + (if req.includeFlashcards then ["Flashcards" + CountSuffix(req.numFlashcards)] else [])
  }

  predicate HasContentLine(req: GenerationRequest) {
    req.includeQuestions || req.includeFlashcards
  }

  function ContentLine(req: GenerationRequest): string {
    "Content to generate: " + Join(", ", ContentBits(req))
  }

  /** Two fixed sections followed by the optional ones that are present. */
  function Assemble(a: string, b: string, c: Option<string>, d: Option<string>): (parts: seq<string>)
    ensures |parts| == 2 + (if c.Some? then 1 else 0) + (if d.Some? then 1 else 0)
    ensures parts[0] == a && parts[1] == b
    ensures c.Some? ==> parts[2] == c.value
    ensures d.Some? ==> parts[|parts| - 1] == d.value
  {
    var fixed := [a, b];
    var withC := if c.Some? then fixed + [c.value] else fixed;
    if d.Some? then withC + [d.value] else withC
  }

  /** Joining the assembled sections puts the separator between neighbours. */
  lemma JoinAssembled(sep: string, a: string, b: string, c: Option<string>, d: Option<string>)
    ensures Join(sep, Assemble(a, b, c, d)) ==
      a + sep + b + (if c.Some? then sep + c.value else "") + (if d.Some? then sep + d.value else "")
  {
    var fixed := [a, b];
    assert Join(sep, fixed) == a + sep + b by {
      assert fixed[1..] == [b];
    }
    var withC := if c.Some? then fixed + [c.value] else fixed;
    if c.Some? {
      JoinSnoc(sep, fixed, c.value);
    }
    if d.Some? {
      JoinSnoc(sep, withC, d.value);
    }
  }

  /** The instructions section, present when the instructions are given and not blank. */
  function InstructionsSection(req: GenerationRequest): (section: Option<string>)
    ensures section.Some? <==> HasInstructions(req)
    ensures section.Some? ==> section.value == InstructionsLine(req)
  {
    if HasInstructions(req) then Some(InstructionsLine(req)) else None
  }

  /** The content section, present when some content kind is requested. */
  function ContentSection(req: GenerationRequest): (section: Option<string>)
    ensures section.Some? <==> HasContentLine(req)
    ensures section.Some? ==> section.value == ContentLine(req)
  {
    if |ContentBits(req)| > 0 then Some(ContentLine(req)) else None
  }

  /** The prompt sections, in order: topic, difficulty, optional instructions, optional
      content directive. */
  function PromptParts(req: GenerationRequest): (parts: seq<string>)
    ensures |parts| == 2 + (if HasInstructions(req) then 1 else 0) + (if HasContentLine(req) then 1 else 0)
    ensures parts[0] == TopicLine(req) && parts[1] == DifficultyLine(req)
    ensures HasInstructions(req) ==> parts[2] == InstructionsLine(req)
    ensures HasContentLine(req) ==> parts[|parts| - 1] == ContentLine(req)
  {
    Assemble(TopicLine(req), DifficultyLine(req), InstructionsSection(req), ContentSection(req))
  }

  /** `"\n\n".join(parts)`: the prompt opens with the topic line and the difficulty line,
      and ends with the content directive when one is requested. */
  function BuildPrompt(req: GenerationRequest): (prompt: string)
    ensures TopicLine(req) + Separator + DifficultyLine(req) <= prompt
    ensures HasContentLine(req) ==> EndsWith(prompt, ContentLine(req))
  {
    var c := InstructionsSection(req);
    var d := ContentSection(req);
    JoinAssembled(Separator, TopicLine(req), DifficultyLine(req), c, d);
    JoinedEnds(Separator, TopicLine(req), DifficultyLine(req), c, d);
    Join(Separator, PromptParts(req))
  }

  /** `s.endswith(t)`. */
  predicate EndsWith(s: string, t: string) {
    |t| <= |s| && s[|s| - |t|..] == t
  }

  /** The joined sections open with the two fixed ones and end with the last optional one. */
  lemma JoinedEnds(sep: string, a: string, b: string, c: Option<string>, d: Option<string>)
    ensures var whole := a + sep + b + (if c.Some? then sep + c.value else "") + (if d.Some? then sep + d.value else "");
      && a + sep + b <= whole
      && (d.Some? ==> EndsWith(whole, d.value))
  {
    var head := a + sep + b;
    var middle := if c.Some? then sep + c.value else "";
    var tail := if d.Some? then sep + d.value else "";
    assert (head + middle + tail)[..|head|] == head;
    if d.Some? {
      var whole := head + middle + tail;
      assert whole[|whole| - |d.value|..] == d.value;
    }
  }

  /** The prompt written out: each present section follows the previous one after a blank
      line, in the fixed order. */
  lemma PromptLayout(req: GenerationRequest)
    ensures BuildPrompt(req) ==
      TopicLine(req) + Separator + DifficultyLine(req)
      + (if HasInstructions(req) then Separator + InstructionsLine(req) else "")
      + (if HasContentLine(req) then Separator + ContentLine(req) else "")
  {
    JoinAssembled(Separator, TopicLine(req), DifficultyLine(req), InstructionsSection(req), ContentSection(req));
  }

  /** The content directive names exactly what was asked for, joined by ", ". */
  lemma ContentLineShape(req: GenerationRequest)
    ensures Join(", ", ContentBits(req)) ==
      if req.includeQuestions && req.includeFlashcards then
        "Questions" + CountSuffix(req.numExercises) + ", " + "Flashcards" + CountSuffix(req.numFlashcards)
      else if req.includeQuestions then "Questions" + CountSuffix(req.numExercises)
      else if req.includeFlashcards then "Flashcards" + CountSuffix(req.numFlashcards)
      else ""
  {
    var bits := ContentBits(req);
    if req.includeQuestions && req.includeFlashcards {
      assert bits[1..] == [bits[1]];
    }
  }

  lemma DefaultDifficultyLine(topic: string)
    ensures DifficultyLine(DefaultRequest(topic)) == "Difficulty: Beginner"
  {
    var req := DefaultRequest(topic);
    BeginnerWord(req.difficulty);
    DifficultyLineOfWord(req, "Beginner");
  }

  lemma DefaultContentLine(topic: string)
    ensures ContentLine(DefaultRequest(topic)) == "Content to generate: Questions"
  {
    ContentLineShape(DefaultRequest(topic));
  }

  /** The prompt of a call with only a topic: the topic line, the default difficulty, and a
      request for questions. */
  lemma DefaultPrompt(topic: string)
    ensures PromptParts(DefaultRequest(topic)) ==
      ["Topic: " + Strip(topic), "Difficulty: Beginner", "Content to generate: Questions"]
    ensures BuildPrompt(DefaultRequest(topic)) ==
      "Topic: " + Strip(topic) + Separator + "Difficulty: Beginner" + Separator + "Content to generate: Questions"
  {
    DefaultDifficultyLine(topic);
    DefaultContentLine(topic);
    assert !HasInstructions(DefaultRequest(topic));
    JoinThree(Separator, "Topic: " + Strip(topic), "Difficulty: Beginner", "Content to generate: Questions");
  }

  lemma JoinThree(sep: string, a: string, b: string, c: string)
    ensures Join(sep, [a, b, c]) == a + sep + b + sep + c
  {
    assert [a, b, c][1..] == [b, c];
    assert [b, c][1..] == [c];
    assert Join(sep, [b, c]) == b + sep + c;
    assert Join(sep, [a, b, c]) == a + sep + (b + sep + c);
  }

  /** `beginner` strips to itself and capitalises to `Beginner`. */
  lemma BeginnerWord(w: string)
    requires w == "beginner"
    ensures Strip(w) == w && Capitalize(w) == "Beginner"
  {
    TrimUntouched(w, IsSpace);
    CapitalizeWord(w);
    assert [ToUpper(w[0])] + w[1..] == "Beginner";
  }

  /** `advanced` strips to itself and capitalises to `Advanced`. */
  lemma AdvancedWord(w: string)
    requires w == "advanced"
    ensures Strip(w) == w && Capitalize(w) == "Advanced"
  {
    TrimUntouched(w, IsSpace);
    CapitalizeWord(w);
    assert [ToUpper(w[0])] + w[1..] == "Advanced";
  }

  /** The difficulty line of a request whose difficulty strips to itself. */
  lemma DifficultyLineOfWord(req: GenerationRequest, shown: string)
    requires Strip(req.difficulty) == req.difficulty && Capitalize(req.difficulty) == shown
    ensures DifficultyLine(req) == "Difficulty: " + shown
  {
  }

  /** The whole `run_sync` call of the agent: the prompt in, an exception's text or its raw
      output (possibly none) back. Any re-prompting the agent library does after output that
      fails validation happens inside this call; the final output is checked against the
      schema afterwards. */
  type Agent = string -> Result<Option<CourseContent>>

  const NoOutputError := "Agent returned no output"

  /** `run_course_generator_sync`: sends the prompt; the agent's declared output type makes
      output that breaks the schema an error; no output is an error; otherwise the output is
      returned with the model's name. */
  function RunCourseGenerator(req: GenerationRequest, agent: Agent, modelName: string): (r: Result<(CourseContent, string)>)
    ensures r.Ok? <==>
      agent(BuildPrompt(req)).Ok? && agent(BuildPrompt(req)).value.Some?
      && ValidContent(agent(BuildPrompt(req)).value.value)
    ensures r.Ok? ==> r.value == (agent(BuildPrompt(req)).value.value, modelName) && ValidContent(r.value.0)
    ensures agent(BuildPrompt(req)) == Ok(None) ==> r == Err(NoOutputError)
    ensures agent(BuildPrompt(req)).Err? ==> r == Err(agent(BuildPrompt(req)).error)
    ensures (agent(BuildPrompt(req)).Ok? && agent(BuildPrompt(req)).value.Some?
             && !ValidContent(agent(BuildPrompt(req)).value.value)) ==> r == Err(SchemaError)
  {
    match agent(BuildPrompt(req))
    case Err(e) => Err(e)
    case Ok(None) => Err(NoOutputError)
    case Ok(Some(output)) =>
      match Validate(output)
      case Err(e) => Err(e)
      case Ok(content) => Ok((content, modelName))
  }
}
