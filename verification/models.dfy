/** The persisted rows the core reads and writes (courses/models.py, progress/models.py),
    reduced to the fields the core uses. */
module CourseModels {
  import opened Results
  import opened Schema

  type UserId = nat

  /** `Exercise.ExerciseType`. */
  datatype ExerciseType = MultipleChoiceType | MatchingPairsType

  /** The JSON payload of an exercise row, one shape per exercise kind. */
  datatype Payload =
    | ChoicePayload(options: seq<string>, correctIndex: int)
    | PairsPayload(pairs: seq<MatchingPair>)

  /** An exercise row of one course; `orderIndex` is unique within the course. */
  datatype Exercise = Exercise(
    orderIndex: nat,
    kind: ExerciseType,
    question: string,
    payload: Payload)

  datatype Course = Course(
    title: string,
    slug: string,
    overview: string,
    cheatsheet: string,
    createdBy: UserId,
    topicNormalized: string)

  /** One recorded submission (`UserProgress`); the exercise is named by its course slug and
      order index, which identify it uniquely. */
  datatype Attempt = Attempt(user: UserId, course: string, orderIndex: nat, correct: bool)

  /** `payload.get("options", [])`. */
  function OptionsOf(p: Payload): seq<string> {
    if p.ChoicePayload? then p.options else []
  }

  /** `payload.get("correct_index")`. */
  function CorrectIndexOf(p: Payload): Option<int> {
    if p.ChoicePayload? then Some(p.correctIndex) else None
  }

  /** `payload.get("pairs", [])`. */
  function PairsOf(p: Payload): seq<MatchingPair> {
    if p.PairsPayload? then p.pairs else []
  }
}
