/** `course_create` (courses/views.py): validate the form, call the generator, resolve a free
    slug, store the course and its exercise rows. The stored slugs, `slugify`, the signed-in
    user and the language model are parameters; the database writes are the outcome's
    `course` and `rows`. */
module CourseCreation {
  import opened Results
  import opened PyText
  import opened Schema
  import opened CourseModels
  import opened Forms
  import opened Prompt
  import opened Slugs
  import opened Conversion

  datatype CreateRequest = ShowForm | Submit(input: FormInput)

  /** The page the view answers with: the form again (with its errors), a redirect to the
      new course, or an unhandled exception. */
  datatype Page =
    | FormPage(errors: seq<FieldError>)
    | RedirectToCourse(slug: string)
    | ServerError(message: string)

  /** What one request does: the page, the flash message, and the rows written. */
  datatype CreateOutcome = CreateOutcome(
    page: Page,
    flash: Option<string>,
    course: Option<Course>,
    rows: seq<Exercise>)

  const TopicRequiredMessage := "Topic is required."
  const TopicNormalizedLength := 255

  function FailureMessage(e: string): string {
    "Failed to generate course: " + e + ". Check your API key and try again."
  }

  function CreatedMessage(title: string): string {
    "Course \U{201C}" + title + "\U{201D} created."
  }

  /** The view either answers before any row is written, or has generated content for the
      stripped topic. */
  datatype Stage = Finished(outcome: CreateOutcome) | Generated(topic: string, content: CourseContent)

  /** How the view turns the cleaned form into the generator's arguments. */
  type GeneratorCall = CleanedData -> GenerationRequest

  /** Everything up to the generator's answer. A GET shows the empty form; an invalid form
      is shown again with its errors; a blank topic is reported on the topic field; a
      generator failure is flashed above the form. */
  function Prelude(req: CreateRequest, agent: Agent, modelName: string, call: GeneratorCall): (s: Stage)
    ensures req.ShowForm? ==> s == Finished(CreateOutcome(FormPage([]), None, None, []))
    ensures req.Submit? && ValidateForm(req.input).Invalid? ==>
      s == Finished(CreateOutcome(FormPage(ValidateForm(req.input).errors), None, None, []))
    ensures req.Submit? && ValidateForm(req.input).Valid? ==>
      var data := ValidateForm(req.input).data;
      var answer := RunCourseGenerator(call(data), agent, modelName);
      && (answer.Err? ==> s == Finished(CreateOutcome(FormPage([]), Some(FailureMessage(answer.error)), None, [])))
      && (answer.Ok? ==> s == Generated(Strip(req.input.topic), answer.value.0))
    ensures s.Finished? ==> s.outcome.course.None? && s.outcome.rows == [] && s.outcome.page.FormPage?
    ensures s.Generated? ==> ValidContent(s.content)
  {
    match req
    case ShowForm => Finished(CreateOutcome(FormPage([]), None, None, []))
    case Submit(input) =>
      match ValidateForm(input)
      case Invalid(errors) => Finished(CreateOutcome(FormPage(errors), None, None, []))
      case Valid(data) =>
        var topic := Strip(data.topic);
        StripIdempotent(input.topic);
        if topic == "" then
          Finished(CreateOutcome(FormPage([FieldError("topic", TopicRequiredMessage)]), None, None, []))
        else
          match RunCourseGenerator(call(data), agent, modelName)
          case Err(e) => Finished(CreateOutcome(FormPage([]), Some(FailureMessage(e)), None, []))
          case Ok(result) => Generated(topic, result.0)
  }

  /** The form's own `required` check already rejects a blank topic, so the view's second
      check never fires: a valid form's topic is still non-empty after the view strips it. */
  lemma TopicCheckNeverFires(input: FormInput)
    requires ValidateForm(input).Valid?
    ensures Strip(ValidateForm(input).data.topic) == Strip(input.topic) != ""
  {
    StripIdempotent(input.topic);
  }

  /** The call the view makes: `run_course_generator_sync(topic)`, every option left at its
      default, so the model is asked for beginner questions on the topic and nothing else. */
  function TopicOnlyCall(data: CleanedData): (req: GenerationRequest)
    ensures BuildPrompt(req) ==
      "Topic: " + Strip(data.topic) + Separator + "Difficulty: Beginner" + Separator + "Content to generate: Questions"
  {
    StripIdempotent(data.topic);
    DefaultPrompt(Strip(data.topic));
    DefaultRequest(Strip(data.topic))
  }

  /** The call that forwards the form's options: blank instructions as `None`, and a blank
      count choice as `None`. */
  function FormCall(data: CleanedData): (req: GenerationRequest)
    ensures req.topic == data.topic && req.difficulty == data.difficulty
    ensures req.instructions.Some? <==> data.instructions != ""
    ensures req.instructions.Some? ==> req.instructions.value == data.instructions
    ensures req.includeQuestions == data.includeQuestions && req.includeFlashcards == data.includeFlashcards
    ensures req.numExercises == data.numExercises && req.numFlashcards == data.numFlashcards
  {
    GenerationRequest(
      data.topic, data.difficulty,
      if data.instructions == "" then None else Some(data.instructions),
      data.includeQuestions, data.numExercises, data.includeFlashcards, data.numFlashcards)
  }

  const TupleAttributeError := "AttributeError: 'tuple' object has no attribute 'title'"

  /** `course_create` as written: the generator's `(content, model_name)` pair is bound to
      `content` whole, so `content.title` raises outside the `try`, and no course is ever
      stored. */
  function CourseCreateAsWritten(req: CreateRequest, agent: Agent, modelName: string): (o: CreateOutcome)
    ensures o.course.None? && o.rows == []
    ensures Prelude(req, agent, modelName, TopicOnlyCall).Finished? ==>
      o == Prelude(req, agent, modelName, TopicOnlyCall).outcome
    ensures Prelude(req, agent, modelName, TopicOnlyCall).Generated? ==> o.page == ServerError(TupleAttributeError)
  {
    match Prelude(req, agent, modelName, TopicOnlyCall)
    case Finished(outcome) => outcome
    case Generated(_, _) => CreateOutcome(ServerError(TupleAttributeError), None, None, [])
  }

  /** A valid submission whose generation succeeds ends in a server error, never in the
      course page. */
  lemma SuccessfulGenerationCrashes(input: FormInput, agent: Agent, modelName: string)
    requires ValidateForm(input).Valid?
    requires var prompt := BuildPrompt(DefaultRequest(Strip(input.topic)));
      agent(prompt).Ok? && agent(prompt).value.Some? && ValidContent(agent(prompt).value.value)
    ensures CourseCreateAsWritten(Submit(input), agent, modelName).page == ServerError(TupleAttributeError)
  {
    TopicOnlyCallOfValid(input);
    GeneratorAnswers(DefaultRequest(Strip(input.topic)), agent, modelName);
    PreludeGenerates(input, agent, modelName, TopicOnlyCall);
  }

  lemma TopicOnlyCallOfValid(input: FormInput)
    requires ValidateForm(input).Valid?
    ensures TopicOnlyCall(ValidateForm(input).data) == DefaultRequest(Strip(input.topic))
  {
    StripIdempotent(input.topic);
  }

  lemma GeneratorAnswers(req: GenerationRequest, agent: Agent, modelName: string)
    requires agent(BuildPrompt(req)).Ok? && agent(BuildPrompt(req)).value.Some?
    requires ValidContent(agent(BuildPrompt(req)).value.value)
    ensures RunCourseGenerator(req, agent, modelName).Ok?
  {
  }

  lemma PreludeGenerates(input: FormInput, agent: Agent, modelName: string, call: GeneratorCall)
    requires ValidateForm(input).Valid?
    requires RunCourseGenerator(call(ValidateForm(input).data), agent, modelName).Ok?
    ensures Prelude(Submit(input), agent, modelName, call).Generated?
  {
  }

  /** As written, the chosen difficulty never reaches the model: an advanced course is asked
      for as a beginner one. */
  lemma DifficultyDroppedAsWritten(data: CleanedData)
    requires data.difficulty == "advanced"
    ensures DifficultyLine(TopicOnlyCall(data)) == "Difficulty: Beginner"
    ensures DifficultyLine(FormCall(data)) == "Difficulty: Advanced"
  {
    TopicOnlyCallIsDefault(data);
    DefaultDifficultyLine(Strip(data.topic));
    AdvancedWord(data.difficulty);
    DifficultyLineOfWord(FormCall(data), "Advanced");
  }

  lemma TopicOnlyCallIsDefault(data: CleanedData)
    ensures TopicOnlyCall(data) == DefaultRequest(Strip(data.topic))
  {
  }

  /** With the options forwarded, every valid form yields a prompt naming its topic, its
      difficulty, its instructions exactly when some were written, and a content directive. */
  lemma FormOptionsReachPrompt(input: FormInput)
    requires ValidateForm(input).Valid?
    ensures var req := FormCall(ValidateForm(input).data);
      && TopicLine(req) == "Topic: " + Strip(input.topic)
      && DifficultyLine(req) == "Difficulty: " + Capitalize(input.difficulty)
      && (HasInstructions(req) <==> Strip(input.instructions) != "")
      && HasContentLine(req)
      && |PromptParts(req)| == 3 + (if Strip(input.instructions) != "" then 1 else 0)
  {
    var data := ValidateForm(input).data;
    StripIdempotent(input.topic);
    StripIdempotent(input.instructions);
    DifficultyChoiceUnstripped(input.difficulty);
  }

  /** The difficulty choices carry no surrounding whitespace, so stripping keeps them. */
  lemma DifficultyChoiceUnstripped(w: string)
    requires w in DifficultyChoices
    ensures Strip(w) == w
  {
    TrimUntouched(w, IsSpace);
  }

  /** The outcome of storing generated `content` for `topic`: a redirect to the course, which
      has the first free slug for its title, the generated texts, the author, and the
      lower-cased topic cut to 255 characters, and one row per generated item that carries its
      tagged payload. */
  ghost predicate StoredCourse(
    topic: string, content: CourseContent, user: UserId, slugify: string -> string,
    existing: set<string>, o: CreateOutcome)
  {
    && o.course.Some?
    && var course := o.course.value;
    && o.page == RedirectToCourse(course.slug)
    && o.flash == Some(CreatedMessage(content.title))
    && course.slug !in existing
    && FirstFree(BaseSlug(content.title, slugify), existing, course.slug)
    && course.title == content.title && course.overview == content.overview
    && course.cheatsheet == content.cheatsheet && course.createdBy == user
    && course.topicNormalized == Prefix(Lower(topic), TopicNormalizedLength)
    && |course.topicNormalized| <= TopicNormalizedLength
    && (forall i :: 0 <= i < |content.exercises| ==>
          (HasTaggedPayload(content.exercises[i]) <==>
           exists k :: 0 <= k < |o.rows| && o.rows[k].orderIndex == i))
    && (forall k :: 0 <= k < |o.rows| ==>
          o.rows[k].orderIndex < |content.exercises|
          && ToRow(content.exercises[o.rows[k].orderIndex], o.rows[k].orderIndex) == Some(o.rows[k]))
    && IncreasingOrder(o.rows)
    && (ValidContent(content) ==> forall k :: 0 <= k < |o.rows| ==> WellFormedRow(o.rows[k]))
  }

  /** The part of `course_create` after generation: slug, course row, exercise rows. */
  method StoreCourse(
    topic: string, content: CourseContent, user: UserId, slugify: string -> string, existing: set<string>)
    returns (o: CreateOutcome)
    ensures StoredCourse(topic, content, user, slugify, existing, o)
  {
    var slug := ResolveSlug(content.title, slugify, existing);
    var course := Course(
      content.title, slug, content.overview, content.cheatsheet, user,
      Prefix(Lower(topic), TopicNormalizedLength));
    var rows := ConvertItems(content.exercises);
    forall k | 0 <= k < |rows| && ValidContent(content) ensures WellFormedRow(rows[k]) {
      ValidItemRow(content.exercises[rows[k].orderIndex], rows[k].orderIndex);
    }
    o := CreateOutcome(RedirectToCourse(slug), Some(CreatedMessage(content.title)), Some(course), rows);
  }

  /** `course_create` with the generator's pair unpacked and the form's options forwarded:
      it answers as the prelude decides, and stores the course once content is generated. */
  method CourseCreate(
    req: CreateRequest, agent: Agent, modelName: string,
    user: UserId, slugify: string -> string, existing: set<string>)
    returns (o: CreateOutcome)
    ensures var stage := Prelude(req, agent, modelName, FormCall);
      && (stage.Finished? ==> o == stage.outcome)
      && (stage.Generated? ==> StoredCourse(stage.topic, stage.content, user, slugify, existing, o))
    ensures o.course.Some? <==> Prelude(req, agent, modelName, FormCall).Generated?
    ensures o.course.Some? ==> forall k :: 0 <= k < |o.rows| ==> WellFormedRow(o.rows[k])
  {
    var stage := Prelude(req, agent, modelName, FormCall);
    if stage.Finished? {
      o := stage.outcome;
    } else {
      o := StoreCourse(stage.topic, stage.content, user, slugify, existing);
    }
  }
}
