/** The structured output the course generator returns (agent/agent.py) and the field
    constraints its schema places on it, as a validity predicate over a tagged item. */
module Schema {
  import opened Results

  /** One multiple-choice question. `explanation` is a required field of the schema; it is
      kept optional here so that data missing it can be represented and rejected. */
  datatype MultipleChoiceExercise = MultipleChoiceExercise(
    question: string,
    options: seq<string>,
    correctIndex: int,
    explanation: Option<string>)

  datatype MatchingPair = MatchingPair(left: string, right: string)

  /** One matching exercise: the right item of pair `i` is the partner of its left item. */
  datatype MatchingExercise = MatchingExercise(question: string, pairs: seq<MatchingPair>)

  /** An exercise as generated: a tag plus two optional payload slots. */
  datatype ExerciseItem = ExerciseItem(
    tag: string,
    multipleChoice: Option<MultipleChoiceExercise>,
    matching: Option<MatchingExercise>)

  datatype CourseContent = CourseContent(
    title: string,
    overview: string,
    cheatsheet: string,
    exercises: seq<ExerciseItem>)

  const MultipleChoiceTag := "multiple_choice"
  const MatchingTag := "matching"

  /** A multiple-choice item has exactly this many options. */
  const OptionCount := 4
  /** The schema's lower bound on pairs (the generator's instructions ask for 4 to 6). */
  const MinPairs := 2
  const MinExercises := 1

  predicate ValidMultipleChoice(m: MultipleChoiceExercise) {
    && |m.options| == OptionCount
    && 0 <= m.correctIndex <= 3
    && m.explanation.Some?
  }

  predicate ValidMatching(m: MatchingExercise) {
    |m.pairs| >= MinPairs
  }

  /** The tag is one of the two literals; each payload slot that is filled is valid. Neither
      slot is required, whatever the tag says. */
  predicate ValidItem(item: ExerciseItem) {
    && (item.tag == MultipleChoiceTag || item.tag == MatchingTag)
    && (item.multipleChoice.Some? ==> ValidMultipleChoice(item.multipleChoice.value))
    && (item.matching.Some? ==> ValidMatching(item.matching.value))
  }

  predicate ValidContent(c: CourseContent) {
    && |c.exercises| >= MinExercises
    && forall i :: 0 <= i < |c.exercises| ==> ValidItem(c.exercises[i])
  }

  /** The model's own stand-in text for a schema failure. The agent library raises its
      own message, and that message is what course creation would flash. */
  const SchemaError := "validation error for CourseContent"

  /** Schema validation of generated content: it is accepted unchanged or rejected. */
  function Validate(c: CourseContent): (r: Result<CourseContent>)
    ensures r.Ok? <==> ValidContent(c)
    ensures r.Ok? ==> r.value == c && |c.exercises| >= 1
    ensures r.Ok? ==> forall i :: 0 <= i < |c.exercises| ==>
      var item := c.exercises[i];
      && (item.tag == "multiple_choice" || item.tag == "matching")
      && (item.multipleChoice.Some? ==>
            |item.multipleChoice.value.options| == 4
            && 0 <= item.multipleChoice.value.correctIndex < |item.multipleChoice.value.options|)
      && (item.matching.Some? ==> |item.matching.value.pairs| >= 2)
    ensures r.Err? ==> r.error == SchemaError
  {
    if ValidContent(c) then Ok(c) else Err(SchemaError)
  }

  /** The schema does not tie the payload to the tag: an item tagged as matching with both
      slots empty is valid. */
  lemma TaggedPayloadNotRequired()
    ensures ValidItem(ExerciseItem(MatchingTag, None, None))
    ensures ValidItem(ExerciseItem(MultipleChoiceTag, None, None))
  {
  }

  /** Two pairs satisfy the schema although the generator is asked for four to six. */
  lemma TwoPairsAccepted(q: string, a: MatchingPair, b: MatchingPair)
    ensures ValidMatching(MatchingExercise(q, [a, b]))
    ensures !ValidMatching(MatchingExercise(q, [a]))
  {
  }

  /** The fixture in agent/tests.py leaves out `explanation`, which the schema requires. */
  lemma FixtureWithoutExplanationRejected()
    ensures !ValidMultipleChoice(MultipleChoiceExercise(
      "What is the result of [x*2 for x in [1,2,3]]?",
      ["[2,4,6]", "[1,2,3]", "[]", "Error"], 0, None))
  {
  }
}
