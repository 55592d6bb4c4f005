/** Moving through a course's exercises (`exercise_view`) and the progress count shown on the
    course page (`course_detail`), courses/views.py. Rendering and redirects are reduced to
    the outcome the view chooses. */
module Navigation {
  import opened Results
  import opened PyText
  import opened CourseModels
  import opened Grading
  import opened Sets

  /** A GET carries the shuffle `random.shuffle` produced; a POST carries the form fields. */
  datatype Request = Get(shuffled: seq<int>) | Post(form: map<string, string>)

  datatype MatchingView = MatchingView(leftItems: seq<string>, rightOptions: seq<(int, string)>)

  datatype ExercisePage = ExercisePage(
    exercise: Exercise,
    index: nat,
    total: nat,
    matching: Option<MatchingView>)

  datatype Response =
    | RedirectToDetail(slug: string)
    | RedirectToExercise(slug: string, index: int)
    | RenderExercise(page: ExercisePage)

  /** What the view does: the response, the attempt row it records, the flash message. */
  datatype Outcome = Outcome(response: Response, attempt: Option<Attempt>, flash: Option<string>)

  const CompleteMessage := "Course complete! Well done."
  const CorrectMessage := "Correct!"
  const WrongMessage := "Not quite. You can try again on the next exercise."

  /** `request.POST.get(key)`. */
  function FormGet(form: map<string, string>, key: string): Option<string> {
    if key in form then Some(form[key]) else None
  }

  /** The form field of the dropdown for left item `i`. */
  function MatchKey(i: int): string {
    "match_" + IntToStr(i)
  }

  /** `{i: request.POST.get(f"match_{i}") for i in range(n)}`: one entry per left item, so
      the size test of `_check_matching` always passes and a missing field reads as `None`. */
  function SelectedByLeft(form: map<string, string>, n: nat): (selected: map<int, Option<string>>)
    ensures selected.Keys == RangeSet(n) && |selected| == n
    ensures forall i :: 0 <= i < n ==> selected[i] == FormGet(form, MatchKey(i))
  {
    RangeSetSize(n);
    map i | i in RangeSet(n) :: FormGet(form, MatchKey(i))
  }

  /** The verdict the POST branch computes for one exercise: a multiple-choice answer is
      right when the `answer` field reads as the stored correct index and that index names
      an option; a matching answer is right when every dropdown `match_i` reads as `i`. */
  function Grade(ex: Exercise, form: map<string, string>): (correct: bool)
    ensures ex.kind == MultipleChoiceType ==>
      (correct <==>
        && CorrectIndexOf(ex.payload).Some?
        && ParseAnswer(FormGet(form, "answer")) == CorrectIndexOf(ex.payload)
        && 0 <= CorrectIndexOf(ex.payload).value < |OptionsOf(ex.payload)|)
    ensures ex.kind == MatchingPairsType ==>
      (correct <==>
        forall i :: 0 <= i < |PairsOf(ex.payload)| ==> ParseAnswer(FormGet(form, MatchKey(i))) == Some(i))
  {
    match ex.kind
    case MultipleChoiceType => CheckMultipleChoice(ex, FormGet(form, "answer"))
    case MatchingPairsType =>
      var n := |PairsOf(ex.payload)|;
      var sel := SelectedByLeft(form, n);
      assert forall i :: 0 <= i < n ==> Lookup(sel, i) == FormGet(form, MatchKey(i));
      CheckMatching(ex, sel)
  }

  /** The GET shuffle is a permutation of the right items of the exercise shown. */
  predicate ShuffleFits(exercises: seq<Exercise>, index: int, req: Request) {
    req.Get? && 0 <= index < |exercises| && exercises[index].kind == MatchingPairsType ==>
      IsPermutation(req.shuffled, |PairsOf(exercises[index].payload)|)
  }

  /** `exercise_view` once the course is found; `exercises` is its list in order. */
  function ExerciseView(slug: string, user: UserId, exercises: seq<Exercise>, index: int, req: Request): (o: Outcome)
    requires ShuffleFits(exercises, index, req)
    ensures !(0 <= index < |exercises|) ==> o == Outcome(RedirectToDetail(slug), None, None)
    ensures 0 <= index < |exercises| && req.Post? ==>
      && o.attempt == Some(Attempt(user, slug, exercises[index].orderIndex, Grade(exercises[index], req.form)))
      && (index + 1 >= |exercises| ==> o.response == RedirectToDetail(slug) && o.flash == Some(CompleteMessage))
      && (index + 1 < |exercises| ==>
            && o.response == RedirectToExercise(slug, index + 1)
            && o.flash == Some(if Grade(exercises[index], req.form) then CorrectMessage else WrongMessage))
    ensures 0 <= index < |exercises| && req.Get? ==>
      && o.attempt.None? && o.flash.None?
      && o.response.RenderExercise?
      && o.response.page.exercise == exercises[index]
      && o.response.page.index == index && o.response.page.total == |exercises|
      && (o.response.page.matching.Some? <==> exercises[index].kind == MatchingPairsType)
      && (exercises[index].kind == MatchingPairsType ==>
            var pairs := PairsOf(exercises[index].payload);
            && |o.response.page.matching.value.leftItems| == |pairs|
            && (forall k :: 0 <= k < |pairs| ==> o.response.page.matching.value.leftItems[k] == pairs[k].left)
            && o.response.page.matching.value.rightOptions == RightOptions(pairs, req.shuffled))
  {
    if index < 0 || index >= |exercises| then
      Outcome(RedirectToDetail(slug), None, None)
    else
      var ex := exercises[index];
      match req
      case Post(form) =>
        var correct := Grade(ex, form);
        var attempt := Attempt(user, slug, ex.orderIndex, correct);
        var next := index + 1;
        if next >= |exercises| then
          Outcome(RedirectToDetail(slug), Some(attempt), Some(CompleteMessage))
        else
          Outcome(RedirectToExercise(slug, next), Some(attempt), Some(if correct then CorrectMessage else WrongMessage))
      case Get(shuffled) =>
        var matching :=
          if ex.kind == MatchingPairsType then
            var pairs := PairsOf(ex.payload);
            Some(MatchingView(seq(|pairs|, k requires 0 <= k < |pairs| => pairs[k].left), RightOptions(pairs, shuffled)))
          else None;
        Outcome(RenderExercise(ExercisePage(ex, index, |exercises|, matching)), None, None)
  }

  /** `course_start`: back to the course page when it has no exercises, otherwise to
      exercise 0. */
  function CourseStart(slug: string, exercises: seq<Exercise>): (r: Response)
    ensures r.RedirectToDetail? <==> |exercises| == 0
    ensures |exercises| == 0 ==> r == RedirectToDetail(slug)
    ensures |exercises| > 0 ==> r == RedirectToExercise(slug, 0)
  {
    if |exercises| == 0 then RedirectToDetail(slug) else RedirectToExercise(slug, 0)
  }

  /** Following the start redirect renders the course's first exercise. */
  lemma StartShowsFirstExercise(slug: string, user: UserId, exercises: seq<Exercise>, shuffled: seq<int>)
    requires |exercises| > 0
    requires ShuffleFits(exercises, 0, Get(shuffled))
    ensures var start := CourseStart(slug, exercises);
      && start.RedirectToExercise?
      && var o := ExerciseView(slug, user, exercises, start.index, Get(shuffled));
      && o.response.RenderExercise?
      && o.response.page.exercise == exercises[0]
      && o.response.page.index == 0 && o.response.page.total == |exercises|
  {
  }

  /** A learner posting `forms[0]`, `forms[1]`, ... from `index` on and following each
      redirect to the next exercise: the attempts recorded, in order. */
  function Session(slug: string, user: UserId, exercises: seq<Exercise>, index: int, forms: seq<map<string, string>>): seq<Attempt>
    decreases |forms|
  {
    if |forms| == 0 then []
    else
      var o := ExerciseView(slug, user, exercises, index, Post(forms[0]));
      var recorded := if o.attempt.Some? then [o.attempt.value] else [];
      if o.response.RedirectToExercise? then
        recorded + Session(slug, user, exercises, o.response.index, forms[1..])
      else recorded
  }

  /** One step of a session: the attempt at `index`, then the rest from the next exercise
      when there is one. */
  lemma SessionStep(slug: string, user: UserId, exercises: seq<Exercise>, index: nat, forms: seq<map<string, string>>)
    requires index < |exercises| && |forms| > 0
    ensures var attempt := Attempt(user, slug, exercises[index].orderIndex, Grade(exercises[index], forms[0]));
      Session(slug, user, exercises, index, forms) ==
        [attempt] + (if index + 1 < |exercises| then Session(slug, user, exercises, index + 1, forms[1..]) else [])
  {
    var o := ExerciseView(slug, user, exercises, index, Post(forms[0]));
    assert o.attempt.Some?;
    assert index + 1 < |exercises| ==> o.response == RedirectToExercise(slug, index + 1);
    assert index + 1 >= |exercises| ==> o.response.RedirectToDetail?;
  }

  /** A verdict for an exercise given the posted form. */
  type Grader = (Exercise, map<string, string>) -> bool

  /** The attempts a learner who answers every remaining exercise in order should leave: one
      per exercise from `index` on, the `k`-th about exercise `index + k` and judged by `grade`
      on `forms[k]`. */
  function Visits(
    slug: string, user: UserId, exercises: seq<Exercise>, index: nat, forms: seq<map<string, string>>, grade: Grader)
    : seq<Attempt>
    requires index <= |exercises| && |forms| >= |exercises| - index
  {
    seq(|exercises| - index, k requires 0 <= k < |exercises| - index =>
      Attempt(user, slug, exercises[index + k].orderIndex, grade(exercises[index + k], forms[k])))
  }

  /** The visits from `index` are the one at `index` followed by those from the next
      exercise. */
  lemma VisitsStep(
    slug: string, user: UserId, exercises: seq<Exercise>, index: nat, forms: seq<map<string, string>>, grade: Grader)
    requires index < |exercises| && |forms| >= |exercises| - index
    ensures Visits(slug, user, exercises, index, forms, grade) ==
      [Attempt(user, slug, exercises[index].orderIndex, grade(exercises[index], forms[0]))]
      + Visits(slug, user, exercises, index + 1, forms[1..], grade)
  {
    var v := Visits(slug, user, exercises, index, forms, grade);
    var rest := Visits(slug, user, exercises, index + 1, forms[1..], grade);
    forall k | 1 <= k < |v| ensures v[k] == rest[k - 1] {
      assert forms[1..][k - 1] == forms[k];
    }
  }

  /** Following the redirects from exercise `index`, posting `forms[0]`, `forms[1]`, ...,
      records exactly the visits of the remaining exercises, in course order, each graded on
      its own form, and then the course is complete. */
  lemma {:induction false} SessionFollowsCourse(
    slug: string, user: UserId, exercises: seq<Exercise>, index: nat, forms: seq<map<string, string>>)
    requires index < |exercises| && |forms| >= |exercises| - index
    ensures Session(slug, user, exercises, index, forms) == Visits(slug, user, exercises, index, forms, Grade)
    decreases |exercises| - index
  {
    SessionStep(slug, user, exercises, index, forms);
    VisitsStep(slug, user, exercises, index, forms, Grade);
    if index + 1 < |exercises| {
      SessionFollowsCourse(slug, user, exercises, index + 1, forms[1..]);
    }
  }

  /** The order indices of a course's exercises. */
  function OrderIndices(exercises: seq<Exercise>): set<nat> {
    set k | 0 <= k < |exercises| :: exercises[k].orderIndex
  }

  lemma {:induction false} OrderIndicesSize(exercises: seq<Exercise>)
    ensures |OrderIndices(exercises)| <= |exercises|
    ensures (forall k, l :: 0 <= k < l < |exercises| ==> exercises[k].orderIndex != exercises[l].orderIndex) ==>
      |OrderIndices(exercises)| == |exercises|
  {
    if |exercises| > 0 {
      var init := exercises[..|exercises| - 1];
      var last := exercises[|exercises| - 1];
      OrderIndicesSize(init);
      assert OrderIndices(exercises) == OrderIndices(init) + {last.orderIndex} by {
        forall x | x in OrderIndices(exercises) ensures x in OrderIndices(init) + {last.orderIndex} {
          var k :| 0 <= k < |exercises| && exercises[k].orderIndex == x;
          if k < |exercises| - 1 {
            assert init[k] == exercises[k];
          }
        }
        forall x | x in OrderIndices(init) ensures x in OrderIndices(exercises) {
          var k :| 0 <= k < |init| && init[k].orderIndex == x;
          assert exercises[k] == init[k];
        }
      }
    }
  }

  /** The distinct exercises of course `slug` that `user` has attempted. */
  function Attempted(slug: string, user: UserId, attempts: seq<Attempt>): set<nat> {
    set a | a in attempts && a.user == user && a.course == slug :: a.orderIndex
  }

  /** `completed_count` of `course_detail`: zero for an anonymous visitor or an empty course,
      otherwise the number of distinct exercises attempted, right or wrong. */
  function CompletedCount(slug: string, user: Option<UserId>, exercises: seq<Exercise>, attempts: seq<Attempt>): (count: nat)
    ensures user.None? || |exercises| == 0 ==> count == 0
    ensures user.Some? && |exercises| > 0 ==> count == |Attempted(slug, user.value, attempts)|
  {
    if user.Some? && |exercises| > 0 then |Attempted(slug, user.value, attempts)| else 0
  }

  /** Every attempt row points at an exercise of its course (the foreign key). */
  predicate AttemptsReferToCourse(slug: string, exercises: seq<Exercise>, attempts: seq<Attempt>) {
    forall a :: a in attempts && a.course == slug ==> a.orderIndex in OrderIndices(exercises)
  }

  /** Progress never exceeds the number of exercises, however many attempts there are. */
  lemma ProgressBounded(slug: string, user: Option<UserId>, exercises: seq<Exercise>, attempts: seq<Attempt>)
    requires AttemptsReferToCourse(slug, exercises, attempts)
    ensures CompletedCount(slug, user, exercises, attempts) <= |exercises|
  {
    if user.Some? && |exercises| > 0 {
      assert Attempted(slug, user.value, attempts) <= OrderIndices(exercises);
      OrderIndicesSize(exercises);
      SubsetSize(Attempted(slug, user.value, attempts), OrderIndices(exercises));
    }
  }

  /** Visiting every exercise of a course attempts each of its order indices. */
  lemma VisitsCoverCourse(
    slug: string, user: UserId, exercises: seq<Exercise>, forms: seq<map<string, string>>, grade: Grader)
    requires |forms| >= |exercises|
    ensures Attempted(slug, user, Visits(slug, user, exercises, 0, forms, grade)) == OrderIndices(exercises)
  {
    var v := Visits(slug, user, exercises, 0, forms, grade);
    forall x | x in OrderIndices(exercises) ensures x in Attempted(slug, user, v) {
      var k :| 0 <= k < |exercises| && exercises[k].orderIndex == x;
      assert v[k] in v;
    }
  }

  /** Once a learner has gone through the whole course, the progress shown is all of it. */
  lemma SessionCompletesProgress(slug: string, user: UserId, exercises: seq<Exercise>, forms: seq<map<string, string>>)
    requires |exercises| > 0 && |forms| >= |exercises|
    requires forall k, l :: 0 <= k < l < |exercises| ==> exercises[k].orderIndex != exercises[l].orderIndex
    ensures CompletedCount(slug, Some(user), exercises, Session(slug, user, exercises, 0, forms)) == |exercises|
  {
    SessionFollowsCourse(slug, user, exercises, 0, forms);
    VisitsCoverCourse(slug, user, exercises, forms, Grade);
    OrderIndicesSize(exercises);
  }
}
