/** `CreateCourseForm` (courses/forms.py): its field bounds and choices, the coercion of the
    count fields, and the cross-field rule of `clean`. The field checks the form library
    performs are reduced to the constraints the form declares. */
module Forms {
  import opened Results
  import opened PyText

  const TopicMaxLength := 255
  const InstructionsMaxLength := 500
  const DifficultyChoices := ["beginner", "intermediate", "advanced"]
  const ExerciseCountChoices := ["", "3", "5", "8", "10"]
  const FlashcardCountChoices := ["", "5", "10", "15", "20"]
  const SelectOneMessage := "Select at least one of Questions or Flashcards."

  /** The submitted fields, as strings and checkbox states. */
  datatype FormInput = FormInput(
    topic: string,
    difficulty: string,
    instructions: string,
    includeQuestions: bool,
    includeFlashcards: bool,
    numExercises: string,
    numFlashcards: string)

  /** The cleaned values. A blank count choice is `None` here; the form library itself hands
      back the field's empty value `""` for it, so a caller forwarding the counts has to turn
      that into `None`. */
  datatype CleanedData = CleanedData(
    topic: string,
    difficulty: string,
    instructions: string,
    includeQuestions: bool,
    includeFlashcards: bool,
    numExercises: Option<int>,
    numFlashcards: Option<int>)

  const FieldNames := ["topic", "difficulty", "additional_instructions", "num_exercises", "num_flashcards"]

  /** A validation error on a field, or on the whole form (`"__all__"`). */
  datatype FieldError = FieldError(field: string, code: string)

  datatype FormResult = Valid(data: CleanedData) | Invalid(errors: seq<FieldError>)

  /** `lambda v: int(v) if v != "" else None`; `int` raising is an error. */
  function CoerceCount(v: string): (r: Result<Option<int>>)
    ensures v == "" ==> r == Ok(None)
    ensures v != "" ==> (r.Ok? <==> ParseInt(v).Some?)
    ensures r.Ok? && v != "" ==> r.value.Some? && ParseInt(v) == r.value
  {
    if v == "" then Ok(None)
    else match ParseInt(v)
      case None => Err("invalid literal for int() with base 10")
      case Some(n) => Ok(Some(n))
  }

  /** Every printed integer coerces back to itself. */
  lemma CoercePrinted(n: int)
    ensures CoerceCount(IntToStr(n)) == Ok(Some(n))
  {
    ParseShowInt(n);
  }

  /** The offered count choices coerce to their numbers, and the blank one to `None`. */
  lemma CoerceOfferedChoices()
    ensures CoerceCount("") == Ok(None)
    ensures CoerceCount("3") == Ok(Some(3)) && CoerceCount("5") == Ok(Some(5))
    ensures CoerceCount("8") == Ok(Some(8)) && CoerceCount("10") == Ok(Some(10))
    ensures CoerceCount("15") == Ok(Some(15)) && CoerceCount("20") == Ok(Some(20))
  {
    assert IntToStr(3) == "3" && IntToStr(5) == "5" && IntToStr(8) == "8";
    assert IntToStr(10) == "10" && IntToStr(15) == "15" && IntToStr(20) == "20";
    CoercePrinted(3);
    CoercePrinted(5);
    CoercePrinted(8);
    CoercePrinted(10);
    CoercePrinted(15);
    CoercePrinted(20);
  }

  /** `CreateCourseForm.clean`: rejects a form that asks for neither questions nor
      flashcards, and otherwise returns the cleaned data as it is. */
  function Clean(d: CleanedData): (r: Result<CleanedData>)
    ensures r.Err? <==> !d.includeQuestions && !d.includeFlashcards
    ensures r.Err? ==> r.error == SelectOneMessage
    ensures r.Ok? ==> r.value == d
  {
    if !d.includeQuestions && !d.includeFlashcards then Err(SelectOneMessage) else Ok(d)
  }

  /** A text field: the value is stripped; a blank value is an error only when the field is
      required, and is otherwise not checked further; a non-blank value is checked against the
      length bound and then for NUL characters, and every failing check is reported. */
  function TextErrors(field: string, value: string, required: bool, maxLength: nat): (errors: seq<FieldError>)
    ensures errors == [] <==>
      if Strip(value) == "" then !required else |Strip(value)| <= maxLength && '\0' !in Strip(value)
    ensures FieldError(field, "null_characters_not_allowed") in errors <==> '\0' in Strip(value)
    ensures forall err :: err in errors ==> err.field == field
  {
    var v := Strip(value);
    if v == "" then (if required then [FieldError(field, "required")] else [])
    else
      (if |v| > maxLength then [FieldError(field, "max_length")] else [])
      + (if '\0' in v then [FieldError(field, "null_characters_not_allowed")] else [])
  }

  /** A choice field: blank when required, or not one of the choices. */
  function ChoiceErrors(field: string, value: string, required: bool, choices: seq<string>): (errors: seq<FieldError>)
    ensures errors == [] <==> if value == "" then !required else value in choices
    ensures forall err :: err in errors ==> err.field == field
  {
    if value == "" then (if required then [FieldError(field, "required")] else [])
    else if value !in choices then [FieldError(field, "invalid_choice")]
    else []
  }

  /** The per-field errors, in field order: none exactly when the stripped topic is present,
      short enough and free of NUL characters, the difficulty is one of its choices, the
      stripped instructions are short enough and free of NUL characters, and each count is
      one of its choices or blank. */
  function FieldErrors(input: FormInput): (errors: seq<FieldError>)
    ensures errors == [] <==>
      && 0 < |Strip(input.topic)| <= TopicMaxLength && '\0' !in Strip(input.topic)
      && input.difficulty in DifficultyChoices
      && |Strip(input.instructions)| <= InstructionsMaxLength && '\0' !in Strip(input.instructions)
      && input.numExercises in ExerciseCountChoices
      && input.numFlashcards in FlashcardCountChoices
    ensures forall err :: err in errors ==> err.field in FieldNames
  {
    var t := TextErrors("topic", input.topic, true, TopicMaxLength);
    var d := ChoiceErrors("difficulty", input.difficulty, true, DifficultyChoices);
    var a := TextErrors("additional_instructions", input.instructions, false, InstructionsMaxLength);
    var e := ChoiceErrors("num_exercises", input.numExercises, false, ExerciseCountChoices);
    var f := ChoiceErrors("num_flashcards", input.numFlashcards, false, FlashcardCountChoices);
    assert "" !in DifficultyChoices;
    assert ExerciseCountChoices[0] == "" && FlashcardCountChoices[0] == "";
    t + d + a + e + f
  }

  /** The counts the exercise dropdown offers, after coercion. */
  predicate OfferedExerciseCount(n: Option<int>) {
    n == None || n == Some(3) || n == Some(5) || n == Some(8) || n == Some(10)
  }

  /** The counts the flashcard dropdown offers, after coercion. */
  predicate OfferedFlashcardCount(n: Option<int>) {
    n == None || n == Some(5) || n == Some(10) || n == Some(15) || n == Some(20)
  }

  lemma CoerceLiteral(v: string, n: int)
    requires v == IntToStr(n)
    ensures CoerceCount(v) == Ok(Some(n))
  {
    CoercePrinted(n);
  }

  lemma ExerciseChoiceCoerces(v: string)
    requires v in ExerciseCountChoices
    ensures CoerceCount(v).Ok? && OfferedExerciseCount(CoerceCount(v).value)
  {
    if v == "" {
    } else if v == "3" {
      CoerceLiteral(v, 3);
    } else if v == "5" {
      CoerceLiteral(v, 5);
    } else if v == "8" {
      CoerceLiteral(v, 8);
    } else {
      assert v == "10";
      CoerceLiteral(v, 10);
    }
  }

  lemma FlashcardChoiceCoerces(v: string)
    requires v in FlashcardCountChoices
    ensures CoerceCount(v).Ok? && OfferedFlashcardCount(CoerceCount(v).value)
  {
    if v == "" {
    } else if v == "5" {
      CoerceLiteral(v, 5);
    } else if v == "10" {
      CoerceLiteral(v, 10);
    } else if v == "15" {
      CoerceLiteral(v, 15);
    } else {
      assert v == "20";
      CoerceLiteral(v, 20);
    }
  }

  /** A value every field accepted carries the bounds the form declares. */
  lemma FieldsPassFacts(input: FormInput)
    requires FieldErrors(input) == []
    ensures 0 < |Strip(input.topic)| <= TopicMaxLength
    ensures |Strip(input.instructions)| <= InstructionsMaxLength
    ensures '\0' !in Strip(input.topic) && '\0' !in Strip(input.instructions)
    ensures input.difficulty in DifficultyChoices
    ensures CoerceCount(input.numExercises).Ok? && OfferedExerciseCount(CoerceCount(input.numExercises).value)
    ensures CoerceCount(input.numFlashcards).Ok? && OfferedFlashcardCount(CoerceCount(input.numFlashcards).value)
  {
    var t := TextErrors("topic", input.topic, true, TopicMaxLength);
    var d := ChoiceErrors("difficulty", input.difficulty, true, DifficultyChoices);
    var a := TextErrors("additional_instructions", input.instructions, false, InstructionsMaxLength);
    var e := ChoiceErrors("num_exercises", input.numExercises, false, ExerciseCountChoices);
    var f := ChoiceErrors("num_flashcards", input.numFlashcards, false, FlashcardCountChoices);
    assert |t| + |d| + |a| + |e| + |f| == |FieldErrors(input)| == 0;
    assert input.numExercises in ExerciseCountChoices by {
      if input.numExercises != "" {
        assert e == [] ;
      } else {
        assert ExerciseCountChoices[0] == "";
      }
    }
    assert input.numFlashcards in FlashcardCountChoices by {
      if input.numFlashcards != "" {
        assert f == [];
      } else {
        assert FlashcardCountChoices[0] == "";
      }
    }
    ExerciseChoiceCoerces(input.numExercises);
    FlashcardChoiceCoerces(input.numFlashcards);
  }

  /** A topic holding a NUL character is refused with the field's own error, however the
      other fields look. */
  lemma NulCharacterRejected(input: FormInput)
    requires '\0' in Strip(input.topic)
    ensures ValidateForm(input).Invalid?
    ensures FieldError("topic", "null_characters_not_allowed") in ValidateForm(input).errors
  {
    var t := TextErrors("topic", input.topic, true, TopicMaxLength);
    var nul := FieldError("topic", "null_characters_not_allowed");
    assert t[|t| - 1] == nul;
    var errors := FieldErrors(input);
    assert errors[|t| - 1] == nul;
    assert nul in errors;
  }

  /** Field validation followed by `clean`: the form is valid exactly when every field
      passes and at least one content kind is selected; a valid form carries a non-empty
      topic of at most 255 characters, instructions of at most 500, a listed difficulty,
      and counts drawn from the offered choices. */
  function ValidateForm(input: FormInput): (r: FormResult)
    ensures r.Valid? <==> FieldErrors(input) == [] && (input.includeQuestions || input.includeFlashcards)
    ensures r.Valid? ==>
      && 0 < |r.data.topic| <= TopicMaxLength
      && r.data.topic == Strip(input.topic)
      && r.data.instructions == Strip(input.instructions)
      && r.data.difficulty == input.difficulty
      && r.data.includeQuestions == input.includeQuestions
      && r.data.includeFlashcards == input.includeFlashcards
      && |r.data.instructions| <= InstructionsMaxLength
      && '\0' !in r.data.topic && '\0' !in r.data.instructions
      && r.data.difficulty in DifficultyChoices
      && (r.data.includeQuestions || r.data.includeFlashcards)
      && OfferedExerciseCount(r.data.numExercises)
      && OfferedFlashcardCount(r.data.numFlashcards)
      && CoerceCount(input.numExercises) == Ok(r.data.numExercises)
      && CoerceCount(input.numFlashcards) == Ok(r.data.numFlashcards)
    ensures r.Invalid? && !input.includeQuestions && !input.includeFlashcards ==>
      FieldError("__all__", SelectOneMessage) in r.errors
  {
    var errors := FieldErrors(input);
    var exercises := CoerceCount(input.numExercises);
    var flashcards := CoerceCount(input.numFlashcards);
    var data := CleanedData(
      Strip(input.topic), input.difficulty, Strip(input.instructions),
      input.includeQuestions, input.includeFlashcards,
      if exercises.Ok? then exercises.value else None,
      if flashcards.Ok? then flashcards.value else None);
    match Clean(data)
    case Err(e) => Invalid(errors + [FieldError("__all__", e)])
    case Ok(d) =>
      if errors == [] then
        FieldsPassFacts(input);
        Valid(d)
      else Invalid(errors)
  }
}
