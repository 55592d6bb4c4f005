# courseforge core, modelled in Dafny

courseforge is a Django site where a signed-in user asks for a course on a topic. A language
model generates the course: a title, an overview, a cheatsheet, and exercises, each either
multiple choice or matching. The view stores the course under a unique slug, and learners
step through its exercises while the site counts their progress. This project models the
rules of that core as pure Dafny functions and methods, and proves what they guarantee:

- the generated-content schema of `agent/agent.py` (`Schema`);
- prompt assembly and the empty-output error of `run_course_generator_sync` (`Prompt`);
- `CreateCourseForm`: its field bounds, its count coercion and its `clean` rule (`Forms`);
- the stored rows of `courses/models.py` and `progress/models.py` (`CourseModels`);
- `_check_multiple_choice`, `_check_matching` and the shuffled right-hand options of a
  matching exercise (`Grading`);
- the unique-slug loop (`Slugs`) and the item-to-row loop (`Conversion`) of `course_create`;
- `course_create` itself, as written and corrected (`CourseCreation`);
- `exercise_view`, `course_start` and the progress count of `course_detail` (`Navigation`).

Python's built-ins are written out where the rules depend on them (`PyText`). These are
`str.strip` with Python's whitespace set, `int(str)` (its own whitespace set, a sign, digit
groups with single underscores), `str(int)`, `capitalize`, `lower` and `str.join`. The
language model, `slugify`, `random.shuffle`, the signed-in user and the stored slugs are
parameters. A database write is a value in the returned outcome.

Two facts about the code that a reader might not expect:

- The schema accepts two matching pairs (agent/agent.py:32), though the generator's
  instructions ask for four to six (agent/agent.py:64).
- Course creation runs synchronously inside the view (courses/views.py:39). There is no
  background job.

## Model

| member | source | states |
|---|---|---|
| Schema.Validate | agent/agent.py:12-49 | generated content is accepted unchanged exactly when it has at least one exercise, every item is tagged `multiple_choice` or `matching`, every filled multiple-choice slot has exactly 4 options, a correct index in 0..3 and an explanation, and every filled matching slot has at least 2 pairs |
| Schema.TaggedPayloadNotRequired | agent/agent.py:35-40 | the schema does not require the slot the tag names: an item tagged `matching` (or `multiple_choice`) with both slots empty is valid |
| Schema.TwoPairsAccepted | agent/agent.py:28-32 | two pairs satisfy the matching schema and one pair does not |
| Schema.FixtureWithoutExplanationRejected | agent/tests.py:15-27 | the test fixture's multiple-choice item, which has no `explanation`, fails the schema that requires one |
| Prompt.ContentBits | agent/run_course_gen.py:22-32 | the content directive lists questions first, then flashcards, one entry per requested kind, each with ` (n)` when a count is given |
| Prompt.PromptParts | agent/run_course_gen.py:19-34 | the prompt has the topic line, then the difficulty line, then the instructions only when they are given and not blank, then the content line only when some content is requested |
| Prompt.BuildPrompt | agent/run_course_gen.py:19-35 | the prompt opens with the topic line, a blank line and the difficulty line, and ends with the content directive whenever questions or flashcards are requested |
| Prompt.PromptLayout | agent/run_course_gen.py:19-35 | the prompt text is the present sections in that order, separated by a blank line |
| Prompt.ContentLineShape | agent/run_course_gen.py:23-34 | the content directive is exactly `Questions[ (n)]`, `Flashcards[ (n)]`, or both joined by `, ` |
| Prompt.DefaultPrompt | agent/run_course_gen.py:9-35 | with only a topic given, the prompt is `Topic: <stripped topic>`, `Difficulty: Beginner` and `Content to generate: Questions` separated by blank lines |
| Prompt.DifficultyLineOfWord | agent/run_course_gen.py:19 | a difficulty with no surrounding whitespace appears in the prompt as `Difficulty: ` followed by its capitalised form |
| Prompt.BeginnerWord | agent/run_course_gen.py:9-19 | the default difficulty `beginner` is already stripped and capitalises to `Beginner` |
| Prompt.AdvancedWord | agent/run_course_gen.py:19 | the choice `advanced` is already stripped and capitalises to `Advanced` |
| Prompt.Assemble | agent/run_course_gen.py:19-34 | the section list is the two fixed sections followed by each optional section that is present, in order |
| Prompt.JoinAssembled | agent/run_course_gen.py:19-35 | joining the section list puts the separator between each pair of neighbouring sections and nowhere else |
| Prompt.InstructionsSection | agent/run_course_gen.py:20-21 | the instructions section is present exactly when instructions are given and not blank, and then holds the stripped instructions |
| Prompt.ContentSection | agent/run_course_gen.py:22-34 | the content section is present exactly when questions or flashcards are requested |
| Prompt.RunCourseGenerator | agent/run_course_gen.py:36-41 | the call succeeds exactly when the model answers the assembled prompt with output that satisfies the content schema, and then returns that output with the model's name; output breaking the schema fails with the schema error, as the agent's declared output type demands; an empty answer fails with `Agent returned no output`; a model error passes through unchanged |
| Forms.TextErrors | courses/forms.py:23-50 | a text field reports nothing exactly when its stripped value is blank and the field optional, or non-blank, within the length bound and free of NUL characters; the NUL error is reported exactly when the stripped value holds a NUL; every error names the field |
| Forms.ChoiceErrors | courses/forms.py:33-73 | a choice field reports nothing exactly when its value is blank and the field optional, or one of the listed choices; every error names the field |
| Forms.FieldErrors | courses/forms.py:23-73 | the fields report nothing exactly when the stripped topic is present, at most 255 characters and NUL-free, the difficulty is one of its three choices, the stripped instructions are at most 500 characters and NUL-free, and each count is blank or one of its choices; every error names one of the five fields |
| Forms.CoerceCount | courses/forms.py:62 | the empty choice coerces to `None`; any other value coerces exactly when `int()` accepts it, and then to that integer |
| Forms.CoercePrinted | courses/forms.py:62 | the decimal form of every integer coerces back to that integer |
| Forms.CoerceOfferedChoices | courses/forms.py:15-69 | the offered count choices coerce to 3, 5, 8, 10 and 15, 20, and the blank one to `None` |
| Forms.Clean | courses/forms.py:75-83 | the form is rejected, with the message asking for questions or flashcards, exactly when neither is selected; otherwise the cleaned data is returned unchanged |
| Forms.ExerciseChoiceCoerces | courses/forms.py:15-66 | every offered exercise-count choice coerces without error to an offered count |
| Forms.FlashcardChoiceCoerces | courses/forms.py:67-73 | every offered flashcard-count choice coerces without error to an offered count |
| Forms.FieldsPassFacts | courses/forms.py:23-73 | when no field has an error, the stripped topic has 1 to 255 characters, the stripped instructions have at most 500, neither holds a NUL character, the difficulty is a listed choice and both counts coerce to an offered value |
| Forms.NulCharacterRejected | courses/forms.py:23-50 | a topic holding a NUL character makes the form invalid with the `null_characters_not_allowed` error on the topic field |
| Forms.ValidateForm | courses/forms.py:23-83 | the form is valid exactly when every field passes and at least one content kind is selected; a valid form carries the stripped topic (1 to 255 characters), the stripped instructions (at most 500), neither holding a NUL character, a listed difficulty, the checkbox states, and the counts the submitted choices coerce to, which are offered ones; a form with neither kind selected reports the form-wide error |
| Grading.CheckMultipleChoice | courses/views.py:125-131 | an answer is correct exactly when it parses as an integer inside the option range that equals the stored correct index; a missing answer is wrong |
| Grading.MultipleChoiceVerdict | courses/views.py:125-131 | submitting the decimal form of option `j` is correct exactly when `j` is the correct index, and any accepted submission parses to the correct index |
| Grading.UnreachableCorrectIndex | courses/views.py:129 | a stored correct index outside the options can never be answered correctly |
| Grading.CheckMatching | courses/views.py:134-145 | a submission whose size differs from the pair count is wrong; otherwise it is correct exactly when every left index `i` maps to an answer that parses to `i` |
| Grading.MatchesFromAll | courses/views.py:139-145 | the loop from left index `i` succeeds exactly when every remaining index maps to itself |
| Grading.MatchingIsIdentity | courses/views.py:134-145 | a matching submission is correct exactly when its keys are exactly `0..n-1` and each entry parses to its own key |
| Grading.CanonicalAcceptedSwapRejected | courses/views.py:134-145 | the posted answer pairing every left item with its own right item is accepted, and exchanging the picks of any two left items makes it wrong |
| Grading.RightOptions | courses/views.py:183-189 | for a permutation of `0..n-1`, the dropdown lists `n` options in shuffled order, each an original index with that pair's right text |
| Grading.RightOptionsBijective | courses/views.py:184-189 | every original right item appears exactly once among the dropdown options |
| Grading.PickedAreShuffled | courses/views.py:185-189 | the option shown at display position `k` posts the original index `shuffled[k]` |
| Grading.PostedVerdict | courses/views.py:134-163 | a posted set of picked original indices is accepted exactly when every left item picked its own index |
| Grading.CheckMatchingReads | courses/views.py:134-145 | a submission of the right size whose entries read as `vals` is accepted exactly when `vals` is the identity |
| Grading.DisplayedChoiceRoundTrip | courses/views.py:162-189 | however the options were shuffled, a matching answer picked through the dropdowns is accepted exactly when every left item picked the display position the shuffle moved its own right item to |
| Grading.PermutationInRange | courses/views.py:185-186 | every entry of a shuffle of `range(n)` lies in `0..n-1` |
| Grading.PermutationLength | courses/views.py:185-186 | a shuffle of `range(n)` has length `n` |
| Slugs.BaseSlug | courses/views.py:46 | the base slug is the slugified title when that is not empty, and `course` when it is |
| Slugs.CandidatesDistinct | courses/views.py:47-51 | the candidates `base`, `base-1`, `base-2`, ... are pairwise distinct |
| Slugs.TriedSize | courses/views.py:47-51 | after `n` rounds the loop has tried `n` distinct candidates, which bounds the loop by the number of stored slugs |
| Slugs.ResolveSlug | courses/views.py:46-51 | the loop terminates with a slug no stored course uses; it is the first free candidate in the order tried, which is the base itself when that is free and `base-n` for some `n >= 1` otherwise |
| Slugs.FirstFreeUnique | courses/views.py:47-51 | at most one slug is the first free candidate, so the result is determined by the stored slugs |
| Slugs.IntroPythonExamples | courses/views.py:47-51 | with `intro-python` taken the loop yields `intro-python-1`, and with that taken too, `intro-python-2` |
| Conversion.ToRow | courses/views.py:60-83 | an item yields a row exactly when its tag is `multiple_choice` with that slot filled or `matching` with that slot filled, and the row's order index is the item's position |
| Conversion.RowRoundTrip | courses/views.py:60-83 | a stored row keeps the item's question, options and correct index, or its pairs in order; only the explanation is dropped |
| Conversion.AppendRow | courses/views.py:60-83 | storing the row of the current item keeps every loop property: rows come from their items, order indices increase, and a row exists for a position exactly when its item carries its tagged payload |
| Conversion.SkipItem | courses/views.py:60-83 | skipping an item without its tagged payload keeps every loop property |
| Conversion.ConvertItems | courses/views.py:60-83 | every row is the conversion of the item at its order index, order indices strictly increase, a row exists for position `i` exactly when item `i` carries its tagged payload, and when every item does there is one row per item with order indices `0..n-1` |
| Conversion.StoredItemIsAnswerable | courses/views.py:60-145 | a stored schema-valid multiple-choice item accepts the decimal form of its correct index and no other option number, and a stored matching item accepts the identity pairing |
| Conversion.ValidItemRow | courses/views.py:60-83 | the row stored for a schema-valid item has the kind of its payload and four options with a correct index among them, or at least two pairs |
| CourseCreation.Prelude | courses/views.py:26-45 | a GET shows the empty form; an invalid form is shown with its errors; a valid form calls the generator, and a failure (including output that breaks the schema) is flashed as `Failed to generate course: <error>. Check your API key and try again.`; generated content satisfies the schema; no row is written before generation succeeds |
| CourseCreation.TopicCheckNeverFires | courses/views.py:34-37 | a valid form's topic is still non-empty after the view strips it again, so the view's own blank-topic check never fires |
| CourseCreation.TopicOnlyCall | courses/views.py:39 | the view's call leaves every option at its default, so the prompt is exactly `Topic: <stripped topic>`, `Difficulty: Beginner` and `Content to generate: Questions`, separated by blank lines |
| CourseCreation.FormCall | agent/run_course_gen.py:9-17 | the corrected call forwards the cleaned difficulty, the instructions (when not blank), both content kinds and both counts |
| CourseCreation.CourseCreateAsWritten | courses/views.py:26-85 | as written, no course or exercise row is ever stored; whenever generation succeeds the request ends in an `AttributeError` on the tuple |
| CourseCreation.SuccessfulGenerationCrashes | courses/views.py:39-46 | a valid submission whose generation returns output ends in that error, never in the course page |
| CourseCreation.DifficultyDroppedAsWritten | courses/views.py:39 | as written, a form asking for an advanced course produces the prompt line `Difficulty: Beginner`; the corrected call produces `Difficulty: Advanced` |
| CourseCreation.FormOptionsReachPrompt | agent/run_course_gen.py:19-34 | with the options forwarded, a valid form's prompt names its topic and its capitalised difficulty, has an instructions section exactly when the instructions are not blank, and always has a content directive |
| CourseCreation.StoreCourse | courses/views.py:46-85 | after generation the course gets the first free slug for its title, the generated title, overview and cheatsheet, its author, and the lower-cased topic cut to 255 characters; the exercise rows are one per item that carries its tagged payload, in strictly increasing order index (so no row twice), each the conversion of its item, and well formed when the content satisfies the schema; the view redirects to the course with the `created` message |
| CourseCreation.CourseCreate | courses/views.py:26-85 | the corrected view answers as the prelude decides, stores a course exactly when generation succeeded, and every row it stores is well formed: four options with a correct index among them, or at least two pairs |
| Navigation.SelectedByLeft | courses/views.py:162 | the collected dropdown answers have one entry per left item, keyed `0..n-1`, each the posted `match_i` field or `None` |
| Navigation.Grade | courses/views.py:157-163 | a posted multiple-choice answer is correct exactly when the `answer` field reads as the stored correct index and that index names one of the options; a posted matching answer is correct exactly when every field `match_i` reads as `i` |
| Navigation.ExerciseView | courses/views.py:149-190 | an index outside the exercises redirects to the course page; a POST records one attempt with the verdict and redirects to the next exercise with the verdict's message, or to the course page with the completion message after the last one; a GET renders the exercise with its index and the course's exercise count, and for a matching exercise only adds the left items in order and the right options as `RightOptions` of the shuffle |
| Navigation.CourseStart | courses/views.py:115-122 | a course without exercises redirects to its own page, and any other course to its exercise 0 |
| Navigation.StartShowsFirstExercise | courses/views.py:115-190 | following the start redirect renders the first exercise with index 0 and the course's exercise count |
| Navigation.SessionStep | courses/views.py:157-174 | one POST at a valid exercise records its graded attempt and continues at the next exercise, or ends after the last one |
| Navigation.SessionFollowsCourse | courses/views.py:157-174 | following the redirects from exercise `i`, posting one form per exercise, records exactly one attempt per remaining exercise, in course order, each for that exercise's order index and graded on its own form, and nothing more |
| Navigation.VisitsCoverCourse | courses/views.py:92-102 | visiting every exercise of a course once leaves an attempt for each of its order indices |
| Navigation.OrderIndicesSize | courses/models.py:34-45 | a course has at most as many order indices as exercises, and exactly as many when they are distinct |
| Navigation.CompletedCount | courses/views.py:92-102 | progress is 0 for an anonymous visitor or an empty course, and otherwise the number of distinct exercises of the course the user attempted, right or wrong |
| Navigation.ProgressBounded | courses/views.py:92-110 | the progress shown never exceeds the number of exercises |
| Navigation.SessionCompletesProgress | courses/views.py:92-174 | after a learner goes through the whole course, the progress shown equals the number of exercises |
| PyText.Strip | agent/run_course_gen.py:19-21 | `strip()` never lengthens a string and leaves one that neither starts nor ends with Python whitespace (`TrimInfix` and `StripIdempotent` say which part is kept) |
| PyText.Trim | agent/run_course_gen.py:19 | stripping never lengthens a string and leaves one that neither starts nor ends with whitespace |
| PyText.TrimInfix | agent/run_course_gen.py:19 | the stripped string is the part of the original between a leading and a trailing run of whitespace |
| PyText.StripIdempotent | courses/views.py:34 | stripping an already-stripped value changes nothing |
| PyText.ParseInt | courses/views.py:128 | `int()` of a blank or whitespace-only string fails (`ParseIntAccepts` says exactly which strings it accepts, and `ParseShowInt` reads every printed integer back) |
| PyText.ParseIntAccepts | courses/views.py:141 | `int()` succeeds exactly when, after its own whitespace set and an optional sign, the text is digit groups with single underscores between digits |
| PyText.ParseShowInt | courses/views.py:128 | `int()` reads back every integer from its decimal form |
| PyText.ShowInjective | courses/views.py:50 | different non-negative integers print differently |
| PyText.Prefix | courses/views.py:58 | `[:255]` keeps at most 255 leading characters, and the whole string when it is short enough |
| PyText.Lower | courses/views.py:58 | for ASCII text, `lower()` keeps the length and lowers each letter |
| PyText.CapitalizeWord | agent/run_course_gen.py:19 | `capitalize()` of a lower-case word upper-cases its first letter only |
| PyText.JoinSnoc | agent/run_course_gen.py:35 | joining one more part appends the separator and that part |

## Left out

- The language model itself, its settings and the lazily built agent (agent/agent.py:52-89): the model is a parameter from prompt to raw answer, and the schema check its declared output type performs is modelled. The model name is a parameter too.
- `get_agent_model`, imported at agent/run_course_gen.py:6, is not defined in agent/agent.py. As the files stand, that import fails, so `courses/views.py` (which imports the generator at line 12) cannot load and no view runs at all. The model assumes the name exists and returns the model's name.
- `slugify` and `random.shuffle` are library calls: the first is a function parameter, the second a permutation parameter of the GET request.
- Database access, `get_object_or_404`, templates, redirects and flash messages are reduced to the values a view returns. The `unique` constraint on slugs is the `existing` set.
- `course_list`, the `created_at` ordering, `__str__` methods, the Markdown filter, admin, the `users` app and the migrations: none of them holds a rule of the core.
- The course-generation job (pending, running, complete) and its background task: no transition of it appears in the core's code.
- `int()` of non-ASCII decimal digits and its 4300-digit limit. Case mapping outside ASCII in `lower()` and `capitalize()`.
- PyText.ParseInt: does not accept non-ASCII decimal digits, which Python's `int()` accepts, so a posted answer in such digits is graded wrong here.
- Forms.CoerceCount: the form library hands the blank choice back as the field's empty value before the coercion runs. The model maps the blank choice to `None`, as the coercion itself would, so CourseCreation.FormCall stands for a call that turns the blank `""` into `None` before forwarding it.
- Forms.ValidateForm: the form library's error messages are reduced to error codes; the `size`, `rows`, labels and help texts of the widgets are not modelled. The text-field checks modelled are `required`, `max_length` and the NUL-character check the form library adds to every text field.
- PyText.Lower: maps ASCII letters only. Python's `lower()` also lowers letters such as `É` and `Ä`, and turns U+0130 into two code points, so for a topic like `École` the model's `topic_normalized` in CourseCreation.StoreCourse keeps the `É` where the site stores `é`.
- CourseCreation.StoreCourse: the redirect to the new course is modelled as a page value, and reversing its URL is not. `slugify(..., allow_unicode=True)` (courses/views.py:46) keeps letters such as `é`, so "Café Culture" gets the slug `café-culture`; the `<slug:slug>` converter (courses/urls.py:10) matches only ASCII letters, digits, `-` and `_`, so `redirect("courses:detail", ...)` at courses/views.py:85 raises `NoReverseMatch` after the course and its rows are stored. For such a title the site answers with a server error where the model answers `RedirectToCourse`.
- Slugs.ResolveSlug: `existing` is the set of stored slugs at the moment the loop runs. A concurrent request that stores the same slug between the `exists()` query (courses/views.py:49) and the insert (courses/views.py:52) is not modelled; there `unique=True` (courses/models.py:7) makes the insert raise `IntegrityError`, so the request fails instead of storing the course at a free slug.
- Flashcards: the form and the prompt can ask for them, but the core stores no flashcard rows.

## Findings

| source | as written | input that shows it | evidently intended | confidence | as-written member | corrected member |
|---|---|---|---|---|---|---|
| courses/views.py:39 | `content = run_course_generator_sync(topic)` binds the `(content, model_name)` pair, so `content.title` on line 46 raises `AttributeError` outside the `try` | any valid form whose generation returns schema-valid output, once `get_agent_model` exists (it is imported but not defined, so as the files stand the import fails first) | unpack the pair, e.g. `content, _ = run_course_generator_sync(topic)` | high; not executed | CourseCreation.CourseCreateAsWritten | CourseCreation.CourseCreate |
| courses/views.py:39 | only the topic is passed, so the difficulty, instructions, content kinds and counts the form validated never reach the prompt | a valid form with difficulty `advanced` yields `Difficulty: Beginner` | pass the cleaned options to the generator, turning a blank count choice (which the form hands back as `""`) into `None`, since the generator tests `is not None` and would otherwise ask for `Questions ()` | medium; not executed | CourseCreation.DifficultyDroppedAsWritten | CourseCreation.FormOptionsReachPrompt |
